# Verified model of the Sentinel service mesh

This project models the stateful core of the mesh in Dafny and proves what it is meant to guarantee.

- **Traffic interception** (`Text`, `Iptables`, `InitContainer`, `Flags`, `Interception`, `RedirectMode`, `Policy`,
  `SwitchOver`, `Exclusions`, `Rerun`, `ExclusionFlag`, `NoLoop`). The init container prints iptables command lines
  from its flags, splits them on whitespace and runs them one at a time, carrying on past failures. `Iptables` is
  the machine it drives: tables, chains and rules, the command line, and the walk of a packet through the chains.
  `InitContainer` builds the text with the program's own loops and applies it to a `Kernel` object. The theorems say
  that the installed rules decide every packet exactly as a one-line policy does, for every set of failed commands,
  after every prefix, and after any number of runs.
- **Certificate rotation** (`Rotation*`, `CertManager`, `LoopIdentity`). The rotation loop, any number of TLS
  readers, the read-write mutex, the clock and the environment are one transition system; the theorems hold of every
  run. `CertManager` is the loop as the program writes it, over fields, and is proved to perform a run of that
  system.
- **Concurrent byte movers** (`AsyncLog`, `Relay`). The bounded log queue with its worker, and the two copying
  goroutines of the TCP relay, over all interleavings. `AsyncLog.AsyncWriter` is the writer as an object with slices
  on the heap.
- **Identity** (`Identity`, `RotationIdentity`). SPIFFE ids as the Go and the Java side print them, the bearer
  header, and the control plane's answer to a certificate request.
- **Injection** (`Json`, `Patch`, `Injection`, `PodPatch`, `Webhook`, `InjectedPod`, `InjectedValues`). The webhook
  concatenates a JSON patch. `Json` reads texts by the grammar of RFC 8259, `Patch` applies operations by RFC 6902
  with pointers of RFC 6901, and the theorems say when the text means what was intended, what it does to every shape
  of pod, and that the two injected containers fit together.

`dafny verify dfyconfig.toml` checks everything.

## Results about the code that are not in its documentation

- The README of the repository speaks of idempotency checks for injection. There are none in `mutate`
  (control-plane/src/main/java/sentinel_zt/controller/SidecarInjectionWebhook.java:56-155). On every pod the patch
  applies to, it applies again, and each list then holds the injected element twice (`PodPatch.InjectingTwice`).
- A token provider that once returns an empty token stops rotation for good: the loop's token check waits and
  retries but never asks for another token. `RotationEnd.DoomedExactly` says that this is the only way there (an
  if-and-only-if over all runs), `RotationEnd.EmptyAnswerLeadsThere` what follows, whether the fetch with the empty
  token succeeds or fails.
- A certificate that does not parse is not fetched anew, although the log message announces it: the loop waits and
  looks again (`RotationEnd.UnparsableStays`). With checked key pairs that does not happen
  (`RotationSafety.ParseNeverFails`).
- Certificates are never served expired while failures in a row number at most k, exactly if k(R + 10s + d) + d < W
  (`RotationLimit.BearsExactly`): beyond that a run that serves an expired certificate is constructed.
- In TPROXY mode a second run with other settings changes the outbound decisions only, when the first run's inbound
  settings are valid: mangle is never flushed, so the first run's inbound rules stay in front. A REDIRECT run behind
  a TPROXY run leaves both inbound diversions in place (`Rerun.BothTablesInTurn`).
- The relay does not always end once one direction has: closing fails the other direction's pending read but not its
  pending write, which is to the connection still open. Without its peers it ends from exactly the states in which
  no write is pending (`Relay.EndsUnaidedExactly`), and a stalled state is reached (`Relay.StallIsReached`).
- The patch text is right exactly when the annotation values, the pod name and the configured names have no quotes,
  backslashes or control characters (`Webhook.PatchForParses`, an if-and-only-if).

## Model

| member | source | states |
|---|---|---|
| InitContainer.BuildTProxyRules | sentinel-init/cmd/main.go:101-150 | the appending loops produce, in order, the setup, exemption (with every non-empty exclusion entry) and interception lines |
| InitContainer.BuildRedirectRules | sentinel-init/cmd/main.go:152-186 | the same for REDIRECT mode |
| InitContainer.LinesReadBack | sentinel-init/cmd/main.go:82-88 | for every flag value, splitting each printed line on whitespace and reading it as iptables does gives the intended command, or none where the flag text names no port or the number is out of range |
| InitContainer.SetupIPTables | sentinel-init/cmd/main.go:66-100 | the loop leaves each table as running the intended commands in order would, skipping whichever fail; a dry run changes nothing |
| Iptables.Kernel.Execute | sentinel-init/cmd/main.go:88-95 | one invocation: creating fails on an existing chain, appending on a missing chain or jump target; a failure changes nothing |
| Iptables.RunConcat | sentinel-init/cmd/main.go:82-98 | running a list of commands is running its parts one after the other |
| Iptables.RunAppends | sentinel-init/cmd/main.go:82-98 | appending commands extend each chain by exactly the rules of those that are neither refused nor unacceptable, in order |
| Iptables.WalkConcat | sentinel-init/cmd/main.go:104-147 | walking a concatenation of rule lists: the second part is reached exactly by packets that fall off the first |
| Iptables.WalkFrame | sentinel-init/cmd/main.go:104-136 | a walk does not see chains that its rules cannot reach |
| Interception.TProxyOutbound | sentinel-init/cmd/main.go:101-150 | for every set of refused commands: which TCP packets leaving the pod are redirected, in terms of the surviving commands |
| Interception.TProxyInbound | sentinel-init/cmd/main.go:101-150 | the same for entering packets, behind whatever PREROUTING rules were there before |
| RedirectMode.RedirectInbound | sentinel-init/cmd/main.go:152-186 | the same for entering packets through the two inbound chains |
| RedirectMode.RedirectOutbound | sentinel-init/cmd/main.go:152-186 | the same for leaving packets through the two outbound chains |
| Policy.TProxyOutboundCorrect | sentinel-init/cmd/main.go:107-133 | any earlier nat content: passes non-TCP, 443, 9090, the proxy's user, the service port, excluded ports and established traffic, and redirects the rest to the outbound port |
| Policy.TProxyInboundCorrect | sentinel-init/cmd/main.go:113-142 | any mangle table without the user chain: passes non-TCP, 443, 9090, excluded ports and established traffic, and sends the rest, service port included, to the inbound port with the mark |
| Policy.RedirectInboundCorrect | sentinel-init/cmd/main.go:175-178 | any earlier nat content: every entering TCP packet goes to the inbound port |
| Policy.RedirectOutboundCorrect | sentinel-init/cmd/main.go:162-183 | any earlier nat content: leaving TCP passes exactly for 9090, excluded ports, the proxy's user and established traffic |
| Policy.ExclusionsSpare | sentinel-init/cmd/main.go:127-133 | the commands of the exclusion entries exempt exactly the TCP packets to a port some entry names |
| SwitchOver.RunCut | sentinel-init/cmd/main.go:82-98 | stopping before a command equals having all later ones refused |
| SwitchOver.TProxyOutboundSwitch | sentinel-init/cmd/main.go:104-147 | after every prefix from the nat flush on, every leaving packet passes, until the last command switches all to their final decision at once |
| SwitchOver.TProxyInboundSwitch | sentinel-init/cmd/main.go:104-142 | entering packets switch all at once at the TPROXY catch-all and stay so |
| SwitchOver.RedirectInboundSwitch | sentinel-init/cmd/main.go:155-178 | entering packets switch all at once at the inbound catch-all and stay so |
| SwitchOver.RedirectOutboundSwitch | sentinel-init/cmd/main.go:155-183 | leaving packets switch all at once at the last command |
| SwitchOver.FailuresNeverMisroute | sentinel-init/cmd/main.go:82-98 | from empty tables and for every subset of failing commands, in both modes: no walk loops, only TCP is diverted, and only to the configured ports |
| Exclusions.FailedExclusions | sentinel-init/cmd/main.go:127-133 | TPROXY outbound: if only exclusion commands fail, the decision of every packet; it differs from the run without failures exactly for redirectable packets to an excluded port of which no exclusion command survived |
| Exclusions.SparedWithFailures | sentinel-init/cmd/main.go:82-98 | if only exclusion commands fail, a chain exempts what the other commands exempt, and TCP to the ports of the surviving ones |
| Exclusions.FailedExclusionsInbound | sentinel-init/cmd/main.go:127-133 | the same two statements for TPROXY inbound, from an empty mangle table |
| Exclusions.FailedExclusionsRedirect | sentinel-init/cmd/main.go:167-174 | the same two statements for REDIRECT outbound |
| Rerun.SecondRunOutbound | sentinel-init/cmd/main.go:107-109 | after a run with A then one with B, in any modes, outbound decisions are those of B alone |
| Rerun.InboundInTurn | sentinel-init/cmd/main.go:104-142 | after any list of runs in any modes, what earlier rules leave undecided is decided in mangle by the first TPROXY configuration that exempts the packet or has a valid catch-all |
| Rerun.BothTablesInTurn | sentinel-init/cmd/main.go:101-186 | after any list of runs, the decisions at mangle PREROUTING, nat PREROUTING and nat OUTPUT: the first as the first TPROXY configurations say, the other two as the last configuration alone |
| Rerun.SecondRunInbound | sentinel-init/cmd/main.go:104-105 | after TPROXY runs with A then B, inbound decisions are A's alone when A's settings are valid, and the user chain holds both bodies |
| Rerun.SameConfigTwice | sentinel-init/cmd/main.go:104-105 | the same configuration twice changes no inbound decision although the chain's rules double |
| ExclusionFlag.FlagExcludes | sentinel-init/cmd/main.go:127-133 | for a flag of decimal ports with empty entries, blanks, repeats and any order, exactly the written ports are excluded |
| ExclusionFlag.OnlyNamedPortsMatter | sentinel-init/cmd/main.go:167-174 | flags that name the same set of ports give the same decision for every packet at nat OUTPUT, nat PREROUTING and mangle PREROUTING, in both modes |
| ExclusionFlag.TProxySucceeds | sentinel-init/cmd/main.go:101-150 | with valid flags, on tables without the program's chains, every command succeeds |
| ExclusionFlag.RedirectSucceeds | sentinel-init/cmd/main.go:152-186 | the same for REDIRECT mode, whatever the service port and the mark |
| ExclusionFlag.FlagSucceeds | sentinel-init/cmd/main.go:126-133 | a flag of decimal ports, however padded, repeated and ordered, makes no command of either mode fail |
| NoLoop.InstalledPolicy | sentinel-init/cmd/main.go:66-72 | both modes' outbound policies, in one form that sets apart who sent the packet |
| NoLoop.FollowsExactly | data-plane/internal/proxy/proxy.go:254-287 | for every connection: none follows one that passes; one to the pod's own address is followed by a dial to the target's host, or by none where the target URL does not parse; any other by a dial to its original destination |
| NoLoop.ChainsStop | data-plane/internal/proxy/proxy.go:332-378 | with the sidecar running as the exempted user, a connection gives rise to at most one more, which passes |
| NoLoop.LoopsExactly | data-plane/internal/proxy/proxy.go:348-355 | a dial outside the pod comes back to the proxy if and only if its user is not the exempted one and nothing else exempts the destination |
| Flags.PairSets | sentinel-init/cmd/main.go:15-27 | a declared flag and its value as two arguments set that flag and leave the rest of the command line to be read |
| Flags.InlineSets | sentinel-init/cmd/main.go:15-27 | the same for a flag and its value as one argument |
| Flags.FlagsRoundTrip | sentinel-init/cmd/main.go:15-27 | a command line that states every flag gives back every configuration with 64-bit numbers, whatever the flags were before |
| InjectedPod.InjectedSettings | control-plane/src/main/java/sentinel_zt/controller/SidecarInjectionWebhook.java:95-126 | read off the injected texts: the init container's arguments configure exactly REDIRECT mode with the default ports and user, and the sidecar runs exactly as that user |
| InjectedPod.InjectedPairStops | control-plane/src/main/java/sentinel_zt/controller/SidecarInjectionWebhook.java:88-130 | so chains of connections of the injected pair stop, and other users' new TCP connections, except to 9090, go through the sidecar |
| InjectedValues.FilledVariables | control-plane/src/main/java/sentinel_zt/controller/SidecarInjectionWebhook.java:107-111 | looked up by name, each variable of the injected sidecar that is filled in has its own string |
| InjectedValues.FixedVariables | control-plane/src/main/java/sentinel_zt/controller/SidecarInjectionWebhook.java:112-120 | so have the variables that are the same for every pod, and those taken from pod fields name the right field |
| InjectedValues.FixedFields | control-plane/src/main/java/sentinel_zt/controller/SidecarInjectionWebhook.java:88-135 | names, images, ports, the secret and the mounted volume of what is injected |
| InjectedValues.RequestValues | control-plane/src/main/java/sentinel_zt/controller/SidecarInjectionWebhook.java:60-111 | read off the text sent back for a request: service name, trust domain, control plane URL with the HTTP port, gRPC target with the gRPC port, and target URL with the annotated port or 8080 |
| InjectedValues.RequestConfigures | control-plane/src/main/java/sentinel_zt/controller/SidecarInjectionWebhook.java:68-95 | and the init container sent back configures REDIRECT mode with the annotated port |
| Rotation.SafeStep | data-plane/internal/cert_manager/cert_manager.go:29-135 | every step of the loop, of a reader or of the environment keeps the invariant: mutex discipline, and certificate and pod UID of one fetch outside the two writes |
| Rotation.SafeAlways | data-plane/internal/cert_manager/cert_manager.go:29-135 | the invariant holds throughout every run |
| RotationSafety.OnlyPublishingChanges | data-plane/internal/cert_manager/cert_manager.go:61-64 | only the two assignments under the write lock change certificate and pod UID; a failed token request or fetch changes neither |
| RotationSafety.CoherentOutsideLock | data-plane/internal/cert_manager/cert_manager.go:129-132 | with no writer inside, both come from the same fetch; and no lock is held across a fetch, a token request, a parse or a wait |
| RotationSafety.OnceSetStaysSet | data-plane/internal/cert_manager/cert_manager.go:23-27 | a certificate once set is never unset |
| RotationSafety.ReadersGetCertificates | data-plane/internal/cert_manager/cert_manager.go:23-27 | once one is set, every reader gets the one published last, with its pod UID on display |
| RotationSafety.NoDeadlock | data-plane/internal/cert_manager/cert_manager.go:41-67 | in every safe state the loop has finished, can go on, or waits for a reader that can; and every waiting reader can take the mutex or waits for one who can go on |
| RotationSafety.WriterGetsMutex | data-plane/internal/cert_manager/cert_manager.go:61-64 | a waiting writer gets the mutex after finitely many reader steps, by a measure that no step raises |
| RotationSafety.ParseNeverFails | data-plane/internal/cert_manager/cert_manager.go:69-78 | if fetches only return checked key pairs, the parse-failure branch is never reached |
| RotationSafety.RetriesAfterDelay | data-plane/internal/cert_manager/cert_manager.go:31-39 | every failed token request, failed fetch, missing token and certificate that does not parse is followed by the whole retry delay, and the loop starts anew only from there or from publishing |
| RotationSafety.RenewsOnDemand | data-plane/internal/cert_manager/cert_manager.go:95-100 | a sleeping loop hears a renewal signal at once and requests a token |
| RotationTime.TimelyAlways | data-plane/internal/cert_manager/cert_manager.go:80-133 | the timing invariant holds throughout every run with long-lived certificates |
| RotationTime.NoExpiredCertificate | data-plane/internal/cert_manager/cert_manager.go:80-133 | with k(R+10s+d)+d < W and at most k failures in a row, no run serves an expired certificate, with renewal on demand at any time |
| RotationLimit.ServedExpired | data-plane/internal/cert_manager/cert_manager.go:80-127 | where k(R+10s+d)+d >= W, a run from a fresh start with k failures in a row serves an expired certificate |
| RotationLimit.BearsExactly | data-plane/internal/cert_manager/cert_manager.go:80-133 | no fair run serves an expired certificate within k failures in a row if and only if k(R+10s+d)+d < W |
| RotationLimit.ShippedSettings | data-plane/internal/proxy/proxy.go:96-102 | over all runs, R=60s and W=300s, also as the default window, bear three failures if and only if d < 22.5s and four if and only if d < 4s; six-minute certificates live long enough |
| RotationRate.FetchesAreBounded | data-plane/internal/cert_manager/cert_manager.go:80-127 | at most 1 + T/min(R, 10s, g) + renewals fetches in any run of length T, also when every attempt fails |
| RotationEnd.EndsAfterCancel | data-plane/internal/cert_manager/cert_manager.go:30-134 | after cancellation, from any loop position, with cancellation winning ties and non-empty certificates: no further token request beyond one already begun, at most one more fetch, and at most 15 more steps |
| RotationEnd.EndingGoesOn | data-plane/internal/cert_manager/cert_manager.go:95-127 | until it has returned, the cancelled loop can always take one of those steps, or waits for a reader that can go on |
| RotationEnd.EmptyTokenWedges | data-plane/internal/cert_manager/cert_manager.go:31-39 | from an empty token on, nothing is requested, fetched or renewed ever again |
| RotationEnd.EmptyAnswerLeadsThere | data-plane/internal/cert_manager/cert_manager.go:113-133 | after an empty answer, whether the next fetch succeeds or fails: no token is ever requested again, at most one more fetch is started, and within seven steps of the loop the state above is reached |
| RotationEnd.DoomedExactly | data-plane/internal/cert_manager/cert_manager.go:31-39 | a run comes to that if and only if it started without a token or the provider once answered with an empty one |
| RotationEnd.UnparsableStays | data-plane/internal/cert_manager/cert_manager.go:69-78 | a certificate on display that does not parse is never fetched anew: nothing is requested or fetched any more |
| RotationIdentity.GuardPasses | data-plane/internal/proxy/proxy.go:76-92 | for a slash-free, non-empty account: a token of the workload passes the server's equality guard for the id fixed at start, and is answered with its account and pod UID |
| RotationIdentity.IdentityKept | data-plane/internal/cert_manager/cert_manager.go:102-132 | at every point of every run the guard passes, and every certificate on display has the account as common name and comes with the pod UID |
| CertManagers.CertManager.GetCurrentCertificate | data-plane/internal/cert_manager/cert_manager.go:23-27 | returns the current certificate, by the four steps of a reader |
| CertManagers.CertManager.Publish | data-plane/internal/cert_manager/cert_manager.go:129-132 | lock, two assignments and unlock are five steps of the machine and set both fields from one fetch |
| CertManagers.CertManager.Pause | data-plane/internal/cert_manager/cert_manager.go:105-110 | the select of every failure branch: back to the top after the delay, or finished on cancellation |
| CertManagers.CertManager.Sleep | data-plane/internal/cert_manager/cert_manager.go:95-100 | the select before a renewal: on after the whole sleep, or at a renewal signal, or finished on cancellation |
| CertManagers.CertManager.StartRotation | data-plane/internal/cert_manager/cert_manager.go:29-135 | against every finite script of answers whose token request and fetch of one attempt together keep the bound, the loop performs a run of the machine from where it started; the tokens, fetches, failures and wake-ups in that run are the script's, in order and one by one; every fetch presents the token then in use and the fixed id, every token request the fixed names; and it returns only finished and cancelled |
| CertManagers.FieldsComeFromOneFetch | data-plane/internal/cert_manager/cert_manager.go:61-64 | whatever the world answers, the two fields of the object are those of the fetch published last |
| LoopIdentity.TokenTracked | data-plane/internal/cert_manager/cert_manager.go:113-118 | at every point of a run the token in use is the last that arrived, or the first |
| LoopIdentity.LoopKeepsIdentity | data-plane/internal/cert_manager/cert_manager.go:102-132 | the loop as written, answered honestly for what its calls present, is always left with a certificate for the workload's account and pod |
| AsyncLog.ConservedStep | data-plane/internal/logger/async_writer.go:27-56 | every step of a writer, the worker or Close keeps: accepted bytes are those output, buffered, in hand and queued, in order, and the queue is bounded |
| AsyncLog.ConservedAlways | data-plane/internal/logger/async_writer.go:27-56 | this holds throughout every interleaving |
| AsyncLog.SendsWhatWasWritten | data-plane/internal/logger/async_writer.go:27-36 | whatever happens in between, a Write sends what the caller's slice held when it was called, or drops it without effect |
| AsyncLog.CloseDeliversEverything | data-plane/internal/logger/async_writer.go:44-61 | when the worker has returned, the output is exactly the accepted payloads |
| AsyncLog.DrainTerminates | data-plane/internal/logger/async_writer.go:44-61 | after close the worker returns, by a measure that each of its steps lowers by one and no other step raises |
| AsyncLog.AsyncWriter.constructor | data-plane/internal/logger/async_writer.go:17-25 | a new writer is the starting state |
| AsyncLog.AsyncWriter.Write | data-plane/internal/logger/async_writer.go:27-36 | overflow exactly when the queue is full and the worker does not take the payload directly, and then nothing changes; otherwise the contents are handed over or queued, in a fresh slice |
| AsyncLog.AsyncWriter.WriteThenScribble | data-plane/internal/logger/async_writer.go:28-29 | changing the caller's slice afterwards has no effect on what is queued |
| AsyncLog.AsyncWriter.Receive | data-plane/internal/logger/async_writer.go:46-50 | the worker takes the oldest payload |
| AsyncLog.AsyncWriter.WriteOut | data-plane/internal/logger/async_writer.go:51 | the payload in hand goes to the end of the buffer |
| AsyncLog.AsyncWriter.FlushOnTick | data-plane/internal/logger/async_writer.go:52-53 | what is buffered goes to the end of the output |
| AsyncLog.AsyncWriter.Close | data-plane/internal/logger/async_writer.go:58-61 | returns with the queue drained and the output equal to all accepted payloads |
| Relay.SafeStep | data-plane/internal/proxy/proxy.go:484-513 | every step keeps what is delivered a prefix of what is read, and connections closed exactly by finished directions |
| Relay.DeliversPrefixes | data-plane/internal/proxy/proxy.go:484-513 | in every interleaving, delivered is a prefix of read, and all of it unless a write failed |
| Relay.CarriesEitherWay | data-plane/internal/proxy/proxy.go:487-510 | either direction takes whatever its peer sends and passes on exactly that, or a prefix when the write fails, and the other does not notice |
| Relay.ClosesItsOutput | data-plane/internal/proxy/proxy.go:497-509 | which connection each direction closes and which it reads from |
| Relay.OneEndEndsBoth | data-plane/internal/proxy/proxy.go:497-512 | an ended direction can close its output; from then on at most three steps are left, some step is always possible, each lowers the measure, and at the end both connections are closed |
| Relay.StallsExactly | data-plane/internal/proxy/proxy.go:497-512 | after one end, the states in which no step is left that needs no peer are exactly those with one direction finished and the other inside a write |
| Relay.EndsUnaidedExactly | data-plane/internal/proxy/proxy.go:497-512 | a run without peers from any state after one end takes at most four steps; once it can go no further, both directions have finished and both connections are closed if and only if no write was pending at its start |
| Relay.RunsToStall | data-plane/internal/proxy/proxy.go:497-512 | from every such state there is a run without peers to where it can go no further |
| Relay.StallIsReached | data-plane/internal/proxy/proxy.go:487-512 | such a state is reached by a run of three steps for every first piece of data |
| Relay.RelayEnds | data-plane/internal/proxy/proxy.go:511-513 | a run has at most three steps after the first state in which a direction has finished, and after three Wait returns |
| Identity.SpiffeParts | data-plane/internal/utils/utils.go:46 | the printed id splits into its fixed parts, domain, namespace and account |
| Identity.SpiffeInjective | data-plane/internal/utils/utils.go:42-48 | for slash-free domains and namespaces the id determines domain, namespace and account |
| Identity.SameDomainInjective | control-plane/src/main/java/sentinel_zt/service/K8sTokenReviewService.java:130 | within any one domain, the id determines slash-free namespaces and accounts |
| Identity.SlashesCollide | data-plane/internal/utils/utils.go:46 | without slash-freedom, for all parts: a slashed namespace and a slashed account print alike, and so do a slashed domain and a slashed namespace |
| Identity.AccountRecovered | control-plane/src/main/java/sentinel_zt/service/VaultPkiService.java:85-92 | the last part of the split id is the account if and only if the account is non-empty and slash-free |
| Identity.NoAccountExactly | control-plane/src/main/java/sentinel_zt/service/VaultPkiService.java:85-92 | there is no account name exactly for identities that are nothing but slashes |
| Identity.BearerRoundTrip | data-plane/internal/grpc/cert_fetcher.go:29-31 | every token reaches the server as its trimmed self |
| Text.TrimSpaceKeeps | data-plane/internal/grpc/cert_fetcher.go:30 | trimming removes the whitespace around a text and nothing else |
| Text.TrimForm | data-plane/internal/grpc/cert_fetcher.go:30 | every text is whitespace, a trimmed core and whitespace |
| Identity.HeaderCarries | data-plane/internal/grpc/cert_fetcher.go:29-31 | for a token with any whitespace around it, the header is "Bearer " and the token itself, and the server reads the token itself, also one that starts with "Bearer " |
| Identity.HeaderWithoutPrefix | control-plane/src/main/java/sentinel_zt/interceptor/GrpcServerInterceptor.java:38-50 | exactly the missing and the blank header are refused; one without the prefix is taken as it is |
| Identity.InterceptCall | control-plane/src/main/java/sentinel_zt/interceptor/GrpcServerInterceptor.java:36-77 | interceptor and service together end every call exactly once: unauthenticated without a usable header, a valid token or decodable claims, permission denied for another identity, else the service's value or error |
| Identity.GetCertificate | control-plane/src/main/java/sentinel_zt/service/IdentityService.java:25-54 | one error, or one value and completion, decided by the equality guard; throws where the identity has no last part |
| Identity.NoIssueForOthers | control-plane/src/main/java/sentinel_zt/service/IdentityService.java:31-35 | for slash-free namespaces and any domain, a certificate for an identity is only issued on a valid token of that namespace and account |
| Identity.OwnIdentityIsIssued | control-plane/src/main/java/sentinel_zt/service/IdentityService.java:36-50 | the id the Go side prints for a token is accepted by the Java side and answered with that account and pod UID |
| Json.CharsMisread | control-plane/src/main/java/sentinel_zt/controller/SidecarInjectionWebhook.java:107-111 | a string with a quote, backslash or control character never reads back as itself between quotes |
| Json.QuoteReads | control-plane/src/main/java/sentinel_zt/controller/SidecarInjectionWebhook.java:107-111 | a quoted string reads back as itself if and only if it has none of them |
| Json.EscapesRead | control-plane/src/main/java/sentinel_zt/controller/SidecarInjectionWebhook.java:145-149 | strings written with the two-character escapes of section 7 of RFC 8259 read back as what they were |
| Json.LiteralsRead | control-plane/src/main/java/sentinel_zt/controller/SidecarInjectionWebhook.java:145-149 | the literal names false and null read as their values (section 3 of RFC 8259) |
| Json.ArrayReads | control-plane/src/main/java/sentinel_zt/controller/SidecarInjectionWebhook.java:102-121 | a concatenated array reads as the array of its values exactly when every part does |
| Json.MemberReads | control-plane/src/main/java/sentinel_zt/controller/SidecarInjectionWebhook.java:92-95 | a name, a colon and a value's text read as that member exactly when the value's text does |
| Json.ObjectReads | control-plane/src/main/java/sentinel_zt/controller/SidecarInjectionWebhook.java:88-96 | a concatenated object reads as its members exactly when every part does |
| Patch.PointerRoundTrip | control-plane/src/main/java/sentinel_zt/controller/SidecarInjectionWebhook.java:138-142 | reading a pointer printed from any list of tokens gives those tokens back (sections 3 and 4 of RFC 6901) |
| Patch.LookupSet | control-plane/src/main/java/sentinel_zt/controller/SidecarInjectionWebhook.java:146-148 | adding a member of an object changes that member and no other (section 4.1 of RFC 6902) |
| Patch.AddsExactly | control-plane/src/main/java/sentinel_zt/controller/SidecarInjectionWebhook.java:145-149 | adding succeeds exactly where the pointer's parent is there and takes the value (section 4.1 of RFC 6902) |
| Patch.AddedIsThere | control-plane/src/main/java/sentinel_zt/controller/SidecarInjectionWebhook.java:145-149 | what was added is what the pointer then refers to, or stands behind the last element where the pointer ends in "-" |
| Patch.InsertsBetween | control-plane/src/main/java/sentinel_zt/controller/SidecarInjectionWebhook.java:145-149 | adding at an index of an array shifts what stands behind and changes nothing else |
| Injection.InitReads | control-plane/src/main/java/sentinel_zt/controller/SidecarInjectionWebhook.java:88-96 | the init container's text reads as the container meant if and only if the port annotation is clean |
| Injection.SidecarReads | control-plane/src/main/java/sentinel_zt/controller/SidecarInjectionWebhook.java:98-130 | the sidecar's text reads as the container meant if and only if its five strings are clean |
| Injection.VolumeReads | control-plane/src/main/java/sentinel_zt/controller/SidecarInjectionWebhook.java:132-135 | the volume's text reads as the volume meant |
| Injection.PatchParses | control-plane/src/main/java/sentinel_zt/controller/SidecarInjectionWebhook.java:145-149 | the whole text parses to the three intended operations if and only if all strings filled in are clean |
| PodPatch.GrowsByOne | control-plane/src/main/java/sentinel_zt/controller/SidecarInjectionWebhook.java:137-143 | the choice of path and value makes an absent, null, empty or non-empty list grow by exactly one element |
| PodPatch.ReadableExactly | control-plane/src/main/java/sentinel_zt/controller/SidecarInjectionWebhook.java:137-143 | what decoding asks of a pod: a spec, and each of the three lists absent, null or an array |
| PodPatch.IntendedApplies | control-plane/src/main/java/sentinel_zt/controller/SidecarInjectionWebhook.java:137-149 | the operations apply if and only if the pod has a list of containers; then each of the three lists has one element more and nothing else differs |
| PodPatch.InjectingTwice | control-plane/src/main/java/sentinel_zt/controller/SidecarInjectionWebhook.java:56-155 | on every pod with containers both a first and a second injection apply, the second changes the pod again, and each list has both elements appended in order |
| Webhook.ParseIntRoundTrip | control-plane/src/main/java/sentinel_zt/controller/SidecarInjectionWebhook.java:70-77 | printed numbers read back exactly over the range of a Java int, and outside it are refused |
| Webhook.ParseIntForms | control-plane/src/main/java/sentinel_zt/controller/SidecarInjectionWebhook.java:72 | either sign and leading zeros are taken |
| Webhook.ParseIntRefuses | control-plane/src/main/java/sentinel_zt/controller/SidecarInjectionWebhook.java:75 | no digits, or a character that is neither a digit nor a sign in front, is refused |
| Webhook.SidecarInjectionWebhook.Mutate | control-plane/src/main/java/sentinel_zt/controller/SidecarInjectionWebhook.java:39-166 | every request is admitted under its own uid; the response carries a patch, of type JSONPatch, exactly when pod and metadata decode and the inject annotation is "true"; and it is the specified response |
| Webhook.EveryoneIsAdmitted | control-plane/src/main/java/sentinel_zt/controller/SidecarInjectionWebhook.java:151-161 | the same of the specified response |
| Webhook.FillingCleanWhen | control-plane/src/main/java/sentinel_zt/controller/SidecarInjectionWebhook.java:60-83 | the target URL is clean whatever the port annotation says; the rest is clean exactly when settings and service name are |
| Webhook.PatchForParses | control-plane/src/main/java/sentinel_zt/controller/SidecarInjectionWebhook.java:60-149 | the text for a request parses as intended if and only if settings, service name and port annotation are clean |
| Webhook.InjectionIsCorrect | control-plane/src/main/java/sentinel_zt/controller/SidecarInjectionWebhook.java:39-166 | from request to patched pod: the text sent back is a patch, applies to every pod with containers, and injects exactly one of each |

## Left out

- InitContainer.LinesReadBack: text that iptables might still accept reads as no command, because only the forms the
  program prints are modelled: port ranges, service names, ports with leading zeros or in octal or hexadecimal, and
  extra arguments inside an exclusion entry.
- Iptables: whether a target may be used in a hook, and the kernel's own refusal of jump cycles, are not modelled; a
  refusal for any such reason is one of the arbitrary refusals the theorems quantify over.
- Only the tables nat and mangle and the hooks PREROUTING and OUTPUT. Connection tracking is a flag of the packet.
- setupRouting, finding the iptables binary, the dry-run output and logging.
- Flags: integer values are read in decimal notation without leading zeros, underscores or a base prefix.
- Rotation time: computation and waiting for the mutex take no time in the state machine, timers fire exactly when
  due, and the token request and fetch of one attempt together take at most a bound d. The mutex is
  writer-preferring.
- Rotation: the context's cancellation during a call is only seen at the next select. A token container without its
  mutex counts as one without a token. A certificate with a nil list of blocks and one with an empty list count as
  the same.
- CertManagers.CertManager.StartRotation: runs against a script of answers with no reader in between; interleavings
  with readers are the state machine's. When the script is used up the context counts as cancelled.
- The log writer's inner writer does not fail, and Write is not called after Close (Go panics there). Whether the
  worker waits in its select when Write is called is a parameter of that method. The second copy of the same code in
  sentinel-init/internal/logger/async_writer.go is not modelled separately.
- The relay: half-closed connections and timeouts are not modelled.
- NoLoop: the proxy's dials are taken from handleOutboundConnection and forwardLocalApp; the TPROXY connection
  handler is left out, because no connection gets past its type check (data-plane/internal/proxy/proxy.go:612-616).
- TLS, X.509, gRPC, HTTP, Vault and the Kubernetes API are parameters: a call succeeds with a value or fails.
- Token decoding is one function that both sides share; the Java side decodes with the standard Base64 alphabet,
  which JWTs do not use (section 2 of RFC 7515), so that it decodes at all is an assumption.
- The alternative names of the certificate request, which come from thread-local logging context.
- Identity: blankness of the header is judged by Go's notion of white space; Java's differs outside ASCII, which
  gRPC header values cannot hold.
- Json: `\u` escapes, signs, fractions and exponents are not read; the texts in question have none. Of JSON Patch
  only `add` is modelled.
- Webhook: the patch is kept as text (the response carries it in Base64). Metadata is a parameter beside the pod's
  JSON, and annotation values are strings. Integer.parseInt is modelled for ASCII digits.
- proxyInboundHTTPRequests and proxyOutboundHTTPRequests, ExtractIdentity, GetOriginalDest, the start-up retry loop,
  configuration defaults, middleware and dashboards.
