# S-Ingress, verified model

A Dafny model of S-Ingress, a Kubernetes ingress controller with its own reverse proxy. A reconciler keeps one
compiled configuration per ingress in step with the cluster. A publisher merges them into routing snapshots and
sends those to the proxy. The proxy routes every request through a chain of middlewares against one snapshot.

`dafny verify dfyconfig.toml` checks everything.

| file | what it holds |
|---|---|
| `Prelude`, `Kube`, `Text` | optional values, list operations, cluster objects, string helpers |
| `Routing`, `Hosts`, `Sizes` | route lists, host keys and lookup, byte sizes |
| `Converter`, `IngressBuilder` | compiling one ingress: as a function, and as the nested loops of the source |
| `Guards`, `Validity` | what the annotations put in front of an upstream and when a request gets past it, and which ingresses compile |
| `State`, `Common`, `Controller`, `Aggregate` | the controller state, the common reconcile, both on the heap, and merging in any walk order |
| `Reconciler`, `Staleness` | the incremental cache over all interleavings, and exactly when it goes stale |
| `Publish`, `EndToEnd`, `Progress` | the publish protocol, its composition with the reconciler, and convergence |
| `Sample`, `Losses` | a small cluster, and runs of the whole system on which a promise fails |
| `Pipeline`, `Server`, `Headers` | one request: as a function, as methods on a mutable writer, and its headers |
| `Oidc`, `Protection` | sessions over time, and what a cluster means for every request end to end |
| `Lifecycle` | starting, serving and leaving |

## How it is built

Code that computes is a function. Code that updates objects is a class or a method with loops, and each such method is
proved equal to a specification function of the old state; the properties are then lemmas about those functions. What
a specification function computes is said once more without it, by a lemma named `…Exactly`.
Concurrent parts are state machines: `Enabled` and `Next` say what a step may do, and theorems quantify over every run.

* **Reads may be stale.** A client read returns the current object unless its change event is still undelivered
  (`Reconciler.Sees`). A reconcile reads its ingress first and takes the lock later, so it may work on an old version,
  and each of its later reads may see the cluster at another moment (`Kube.Views`). So may each read of a TCP service.
* **Map iteration order** is any order (`Aggregate.IsOrder`), chosen afresh for every aggregation.
* **Library outcomes are inputs**: address, prefix, password-file, URL, pattern and key-pair parsing are arbitrary
  functions (`Converter.Libs`); dialling, round trips, session and password checks and page rendering are arbitrary
  outcomes (`Pipeline.Env`). Clocks are steps of a run.
* **Tame runs.** Some promises fail after particular steps. Those steps are excluded by a predicate `Tame` that
  speaks only of the state before the step, and each exclusion has a lemma that says exactly when the step does harm.

## Where the code does less than it seems to

Each of these is a result here: a run or input that shows it, and the exact condition.

* A prefix path such as `/foo` also matches `/fo`, and `/foobar`. The element-wise rule of the Kubernetes Ingress API
  holds exactly for paths that end in a slash (`Routing.ElementPrefixExactly`). An empty prefix path makes the lookup
  panic (`Routing.CrashExactly`).
* `AddHost` and its wildcard keys are never used by the controller, which stores hosts as written. A wildcard host of an
  ingress therefore never matches (`Hosts.RawWildcardIgnored`); the repository's own TODO list agrees.
* A backend that names its service port by number can get another port: an unnamed service port matches the absent name
  (`Converter.PortByNumberExactly`).
* The walk order over the ingresses shows in the routing exactly when two of them own a best match
  (`Aggregate.OrderFreeExactly`).
* Whether a dropped ingress "was relevant" is judged by the current classes, after its class may have gone; then a
  publish is lost (`Publish.DropLosesExactly`, `Losses.ClassRemovalReachable`).
* A common reconcile that fails half-way keeps what it stored and requests no publish (`Publish.FailCommonExactly`,
  `Losses.FailCommonReachable`). What it left unread is not read again until the next event
  (`EndToEnd.FailLeavesExactly`).
* The service watch asks for nothing when the service of a TCP proxy changes (`EndToEnd.TcpChangeExactly`,
  `Losses.TcpStaleReachable`).
* A change of the configured upstream service, or of the controller configuration, requeues no ingress
  (`Staleness.UpstreamChangeExactly`, `Staleness.ConfigChangeExactly`).
* OIDC renewal happens before the client name is compared, so two clients with one key share sessions
  (`Oidc.BoundedExactly`). With expiration 0 a session has no bound (`Oidc.NoExpirationNoBound`).
* A TCP proxy reports on the error channel more than once, so `Start` can leave while a listener still runs
  (`Lifecycle.LeavesAfterAllFourExactly`).
* The size table gives `m` and `g` ten times their usual value; the model keeps the table as written.

## Model

| member | source | states |
|---|---|---|
| Routing.HostConfig.AddRoute | pkg/proxy/config.go:91-112 | inserting in place equals inserting before the first route of no higher rank |
| Routing.HostConfig.LookupRoute | pkg/proxy/config.go:114-122 | the loop finds the first route that matches, panics on an empty prefix path, or misses |
| Routing.InsertKeepsSorted | pkg/proxy/config.go:91-112 | exact routes stay first, then prefixes by non-increasing length |
| Routing.InsertAllPermutes | pkg/proxy/config.go:91-112 | a run of additions loses and duplicates no route |
| Routing.InsertAllInjective | pkg/proxy/config.go:91-112 | lists of equal ranks that give equal results are equal |
| Routing.OnePassReversesTies | pkg/proxy/config.go:91-112 | one pass is a stable sort by rank of the reversed additions |
| Routing.TwoPassesAreStableSort | pkg/controller/converter.go:81-88 | a second pass over the result restores declaration order among ties |
| Routing.StableSortUnique | pkg/proxy/config.go:91-112 | rank order together with the order of ties determines the list |
| Routing.LookupInStableSort | pkg/proxy/config.go:114-122 | a lookup in a stable sort finds the earliest route of the best matching rank of the unsorted list, or nothing exactly when nothing matches |
| Routing.LookupOne | pkg/proxy/config.go:137-149 | one route is found exactly by its own path if it is exact, and if it is a non-empty prefix exactly by the paths that extend it or fall short of it by one character |
| Routing.BestMatch | pkg/proxy/config.go:91-149 | after any run of additions the list is a permutation with exact routes before prefixes and longer prefixes before shorter ones, and a lookup finds the latest-added of the matches that no match goes before; without a match it panics exactly when an empty prefix was added, and else misses |
| Routing.CrashExactly | pkg/proxy/config.go:137-149 | a lookup panics exactly when an empty prefix path was added and no route matches |
| Routing.ElementPrefixExactly | pkg/proxy/config.go:137-149 | a prefix route is found by exactly the request paths of the element-wise rule exactly when its path ends in a slash |
| Hosts.HostTable.AddHost | pkg/proxy/config.go:50-57 | stores under the normalised key, or refuses and changes nothing |
| Hosts.AcceptedExactly | pkg/proxy/config.go:163-180 | a host is accepted exactly when it has no dot or no empty label |
| Hosts.LabelsPlain | pkg/proxy/config.go:163-180 | no label holds a dot |
| Hosts.KeyShape | pkg/proxy/config.go:163-180 | an accepted key starts with a dot exactly for wildcard hosts, and the host can be read back from it |
| Hosts.NormalizeInjective | pkg/proxy/config.go:163-180 | different accepted hosts have different keys |
| Hosts.TableGet | pkg/proxy/config.go:50-57 | after any run of additions the key of a host holds what was last given for exactly that host |
| Hosts.LookupHostRule | pkg/proxy/config.go:59-84 | on any table built by AddHost: the host itself, else the wildcard over exactly its first label, else the default |
| Hosts.WildcardDepth | pkg/proxy/config.go:59-84 | a wildcard covers neither its apex nor deeper names |
| Hosts.RawWildcardIgnored | pkg/controller/converter.go:302-311 | an entry stored under the text of a wildcard host, as the controller stores it, never takes part in a lookup |
| Sizes.AcceptedExactly | pkg/config/config_yaml.go:217-235 | accepted exactly when digits below 2^63 are followed by a table unit in any letter case |
| Sizes.UnitTable | pkg/config/config_yaml.go:204-215 | the value of every unit, and that no other text is one |
| Sizes.RoundTripExactly | pkg/config/config_yaml.go:204-235 | printing n and appending a unit parses to n units exactly when the product is below 2^63 |
| Text.ParseCommaList | modules/oidc/middlewares.go:100-113 | the loop yields the parts between the commas, in order, each trimmed |
| Text.TrimExactly | modules/oidc/middlewares.go:109 | trimming removes blank ends only and leaves no space at either end, for the UTF-8 encodings of all the spaces |
| Text.SplitJoins | modules/oidc/middlewares.go:105 | the parts hold no separator and join back to the string |
| Converter.CompileDependsOnReads | pkg/controller/converter.go:187-216 | a cluster that agrees on every recorded secret and service compiles the ingress to the same configuration with the same recorded reads |
| Converter.SeenDependsOnReads | pkg/controller/converter.go:187-216 | the same with one snapshot of the cluster per read: a cluster that agrees with every snapshot on every recorded read compiles the ingress to the same configuration and reads |
| Converter.CompileSteady | pkg/controller/converter.go:187-216 | when no read sees a change, the snapshots do not show |
| Converter.CompiledHost | pkg/controller/converter.go:242-314 | the list of a host is one AddRoute pass over what the rules declare for it, and the host exists exactly when something is declared |
| Converter.RouteFields | pkg/controller/converter.go:255-341 | a declared route matches exactly when its type is absent or Exact and by prefix when it is Prefix or ImplementationSpecific, takes its body limit from the annotation if there is one, and leads to the parsed cluster address of its service and the first of its ports that matches by name or number, in 16 bits |
| Converter.ServicePortFirst | pkg/controller/converter.go:280-290 | the first service port that matches by name or by number is taken, and 0 when none does |
| Converter.PortByNumberExactly | pkg/controller/converter.go:280-290 | a backend by number gets that number exactly when no earlier service port is unnamed |
| Converter.CompiledCert | pkg/controller/converter.go:423-454 | a host has a certificate exactly when a TLS item with a secret lists it, and then that of the first such item |
| Converter.CertificateExactly | pkg/controller/converter.go:456-469 | a secret yields exactly its tls.crt and its tls.key, exactly when these are a key pair |
| Converter.DeclaredOwner | pkg/controller/converter.go:242-314 | every declared route names its ingress |
| Converter.SeenNamed | pkg/controller/converter.go:302-309 | whatever the reads see, every compiled route names its ingress |
| Guards.ModuleExactly | modules/modules.go:13-25 | a module that accepts an ingress contributes a middleware exactly when the annotations ask for it, and with the values they give: the trimmed entries of an allowlist in order, the password file of the named secret, the addresses of the auth service, the client with its groups and emails, the deny pattern, the header lines |
| Guards.GuardsOnRoutes | pkg/controller/converter.go:364-391 | in front of every declared route stands exactly what the annotations of its ingress ask of some module |
| Guards.ReachedExactly | pkg/controller/converter.go:379-388 | under the shipped modules the upstream of a declared route is contacted exactly when the request meets each condition of the annotations and is no upgrade; a websocket is dialled exactly when it meets them and is one |
| Guards.AnsweredExactly | pkg/proxy/serve.go:18-112 | the same for a whole request that resolves to that route, and then the client gets the upstream's status, or 502, or 413 |
| Guards.EntryExactly | pkg/controller/converter.go:106-119 | in front of all routes stand exactly the HTTPS redirect, if it is the default, and the login callback of the OIDC module |
| Guards.EntryAdmits | modules/oidc/middlewares.go:81-91 | a request gets past those exactly when it has TLS or needs none and is no login callback |
| Validity.AcceptsExactly | modules/modules.go:13-25 | a module refuses an ingress exactly for a bad allowlist entry, a missing or bad password file, an unknown or bad auth address, an unknown client, or a bad pattern |
| Validity.CompilesExactly | pkg/controller/converter.go:187-216 | an ingress compiles exactly when each path with a service has accepting modules, a service with an address, a known type and a readable limit, and each TLS item with a secret has its key pair |
| Validity.RouteForExactly | pkg/controller/converter.go:242-314 | such a path declares exactly one route and any other none |
| IngressBuilder.IngressConfiguration.GetSecret | pkg/controller/converter.go:40-49 | a secret is recorded exactly when it was read |
| IngressBuilder.IngressConfiguration.IngressMiddleware | modules/modules.go:13-25 | each module yields the specified middleware, nothing or an error, and only basic auth reads and records a secret |
| IngressBuilder.ParsePrefixes | modules/auth/ipauth.go:30-39 | the allowlist loop yields all trimmed parts exactly when each is a prefix |
| IngressBuilder.IngressConfiguration.GetMiddlewares | pkg/controller/converter.go:364-391 | the module loop yields the specified chain and reads, or the first error |
| IngressBuilder.IngressConfiguration.AddPath | pkg/controller/converter.go:242-314 | adds one route and its reads as specified, fails exactly when specified, keeps host lists unshared |
| IngressBuilder.IngressConfiguration.ProcessTls | pkg/controller/converter.go:423-454 | the certificate loop yields the specified map and reads; the first certificate of a host stays |
| IngressBuilder.FindPort | pkg/controller/converter.go:280-290 | the loop finds the specified port |
| IngressBuilder.ReconcileIngress | pkg/controller/converter.go:187-216 | the nested loops build, on fresh objects only and with one snapshot per read, exactly the specified configuration, and fail exactly when specified |
| Controller.IngressController.RequestReconfigure | pkg/controller/controller.go:51-57 | a token is waiting afterwards, whether or not one was |
| Controller.IngressController.RemoveIngress | pkg/controller/state.go:74-82 | drops the entry and reports relevance under the current classes |
| Controller.IngressController.MarkIngressIrrelevant | pkg/controller/state.go:55-72 | leaves an unconfigured entry and reports the old entry's relevance under the current classes |
| Controller.IngressController.UpdateIngress | pkg/controller/state.go:50-53 | stores the compiled configuration under the ingress's own name |
| Controller.IngressController.ReconcileIngress | pkg/controller/ingress.go:41-77 | the new state and the publish request are those specified; an error changes nothing |
| Controller.IngressController.AddIngressClass | pkg/controller/ingress.go:91-106 | records the class and requests a publish |
| Controller.IngressController.RemoveIngressClass | pkg/controller/ingress.go:79-89 | forgets the class and requests a publish exactly if it was known |
| Controller.IngressController.RequestsForSecret | pkg/controller/reconcile.go:89-118 | requeues exactly the entries that recorded the secret; asks for a common reconcile exactly when the controller uses it |
| Controller.IngressController.RequestsForService | pkg/controller/reconcile.go:147-176 | requeues exactly the entries that recorded the service, and none for the upstream service |
| Controller.IngressController.ReconfigureCommon | pkg/controller/controller.go:116-139 | every stage that succeeds has stored its part, the first error stops, and only the end requests a publish |
| Controller.LoadTcpProxies | pkg/controller/converter.go:136-158 | the loop yields the specified endpoints, or the first error |
| Common.TcpExactly | pkg/controller/converter.go:343-362 | the TCP loop succeeds exactly when every service resolves, and with a list exactly when it holds what they resolve to |
| Common.AddrPortExactly | pkg/controller/converter.go:343-362 | a TCP service resolves exactly when it exists with an address and a port of the configured name, and then to the first such port, in 16 bits |
| Common.DefaultTlsExactly | pkg/controller/converter.go:410-421 | there is no default certificate exactly when none is configured, and else that of the named secret in the controller's own namespace |
| Common.ReconfigureExactly | pkg/controller/controller.go:116-139 | on a steady cluster the common reconcile succeeds exactly when the default secret holds a key pair, or none is configured, and every TCP service resolves; then the state holds what they give |
| Controller.RoutingConfig.MergeHosts | pkg/controller/converter.go:81-89 | merging in any host order inserts every route of every host into lists this configuration allocated |
| Controller.RoutingConfig.MergeCerts | pkg/controller/converter.go:91-100 | in any order, certificates already present stay and the others are added |
| Controller.IngressController.GetProxyConfig | pkg/controller/converter.go:55-104 | the result, on fresh objects only, is the specified aggregate for some order that visits every configured entry once |
| Controller.ReconcileAndAggregate | pkg/controller/converter.go:62-101 | no published snapshot and no cached route list changes under a later reconcile and aggregation |
| Aggregate.AggregateIsNotNil | pkg/controller/converter.go:106-119 | with the shipped modules an aggregate is never the nil configuration |
| Aggregate.MergeIsStableSort | pkg/controller/converter.go:76-101 | a merged host list is the stable sort of all declarations, later-visited ingresses first, each in declaration order |
| Aggregate.HostPresent | pkg/controller/converter.go:81-89 | a host exists in the aggregate exactly when some visited ingress declares a route for it |
| Aggregate.LookupWinner | pkg/controller/converter.go:76-101 | a lookup is won by the latest-visited owner of a best match, with the first of its best declarations |
| Aggregate.LookupDeclared | pkg/controller/converter.go:76-101 | by the paths alone: among all declared matches a foremost one is found, of the latest-visited ingress that has one, and of that the first; without a match the lookup panics or misses |
| Aggregate.OneOwnerAnyOrder | pkg/controller/converter.go:76-101 | with at most one owner of a best match every walk order gives the same outcome |
| Aggregate.AnyOrderSameRouting | pkg/controller/converter.go:76-101 | without clashing routes or shared certificate hosts every walk order routes every host and path alike and yields the same certificates |
| Aggregate.OrderFreeExactly | pkg/controller/converter.go:76-101 | a lookup is independent of the walk order exactly when at most one ingress owns a best match, or the best is an empty prefix |
| Aggregate.MergedCert | pkg/controller/converter.go:91-100 | a host's certificate comes from the first-visited ingress that has one |
| Reconciler.RelevanceSettled | pkg/controller/state.go:32-40 | relevance in the controller is relevance in the cluster unless a class change is under way |
| Reconciler.FinishSettles | pkg/controller/ingress.go:41-77 | a reconcile whose every read may be stale leaves its ingress fresh, or a reason to look again |
| Reconciler.StepKeeps | pkg/controller/reconcile.go:22-176 | every tame step keeps the queue-or-fresh invariant |
| Reconciler.QueueOrFresh | pkg/controller/reconcile.go:22-176 | in every state of every tame run, with reads that may each see another moment, an ingress name is scheduled for another look or its entry equals the build from scratch |
| Reconciler.DrainedIsRebuild | pkg/controller/ingress.go:41-106 | with everything delivered and the queue drained, the whole cache is the simple rebuild of the cluster |
| Reconciler.NoReconcileBeforeConfig | pkg/controller/reconcile.go:51-54 | on every run, nothing is in flight or stored before the configuration is set, so it is never read while missing |
| Staleness.RecordedServices | pkg/controller/converter.go:242-314 | the services recorded for a compiled ingress are exactly its backends |
| Staleness.CompiledSameExactly | pkg/controller/converter.go:187-216 | two inputs with equal secrets compile an ingress alike, reads included, exactly when each of its paths declares the same route under both |
| Staleness.CompiledByEndpoints | pkg/controller/converter.go:242-314 | what a compiled ingress takes from the services is exactly the address and port of each backend |
| Staleness.CompiledByConf | pkg/controller/converter.go:242-314 | what it takes from the controller configuration is exactly its chain and its body limit |
| Staleness.UpstreamChangeExactly | pkg/controller/reconcile.go:153-162 | after a delivered upstream-service change nothing is outstanding, and an entry is fresh exactly when it is not compiled or its backends resolve as before |
| Staleness.ConfigChangeExactly | pkg/controller/converter.go:121-134 | after a configuration change nothing is requeued, and an entry is fresh exactly when it is not compiled, has no service backend, or gets the same chain and limit |
| Staleness.UpstreamDeleted | pkg/controller/reconcile.go:158-161 | deleting an upstream service that backs an ingress reaches a drained state with a stale entry |
| Staleness.UpstreamStaleReachable | pkg/controller/reconcile.go:158-161 | a concrete cluster where that happens, on a run from the start |
| Staleness.LimitChanged | pkg/controller/converter.go:121-134 | changing the default body limit reaches a drained state with a stale entry |
| Staleness.ConfigStaleReachable | pkg/controller/converter.go:121-134 | a concrete run from the start on which a changed body limit leaves a stale entry |
| Publish.OrderlyKept | pkg/controller/controller.go:81-107 | every step keeps: state is read only with a configuration, the channel holds at most five, and the proxy gets what was computed, in order |
| Publish.StagesAreReconfigure | pkg/controller/controller.go:116-139 | the stages of Run, taken on any reads, end where the common reconcile ends |
| Publish.StartupSafety | cmd/main.go:88-105 | on every run: no aggregation without a configuration, a configuration once set stays, no nil configuration is computed or installed, and the proxy installs a prefix of what was computed |
| Publish.DropLosesExactly | pkg/controller/state.go:55-82 | with the last computed configuration current and no publish requested or under way, dropping an entry loses none exactly when it requests one, the entry is not configured, or it holds no route and no certificate |
| Publish.StepKeepsPublished | pkg/controller/controller.go:51-107 | every step loses no publish, but a drop of routes or certificates that requests none, and a common reconcile that fails after changing what is shown, while none is requested or under way |
| Publish.NoLostPublish | pkg/controller/controller.go:51-107 | in every state of every run without such a step, classes added and removed freely, a publish is requested, in progress, or the last computed configuration is an aggregate of the current state |
| Publish.Converged | pkg/controller/controller.go:94-103 | with no token, Run idle and the channel empty, the installed configuration is an aggregate of the current state |
| Publish.ClassRemovalLosesPublish | pkg/controller/ingress.go:79-89 | removing the class of a configured ingress with a route or certificate, among any number of others, publishing, and reconciling it loses a publish |
| Publish.FailCommonExactly | pkg/controller/controller.go:116-139 | a common reconcile that fails at any stage loses no publish exactly when what it stored shows the same to getProxyConfig as what it found |
| EndToEnd.RunKeeps | pkg/controller/controller.go:81-107 | the invariants of reconciler, publisher and common part hold together on every tame run over one state |
| EndToEnd.QuiescentIsRebuild | pkg/proxy/proxy.go:168-172 | in every quiescent state the proxy runs an aggregate of the build from scratch of the current cluster |
| EndToEnd.QuiescentCommon | pkg/controller/converter.go:136-173 | there, the default certificate and the TCP endpoints the proxy runs are those the cluster gives, if it gives them |
| EndToEnd.TcpDeliveryExactly | pkg/controller/reconcile.go:147-176 | a delivered change of a TCP service keeps that promise exactly when a read is ahead, another such change is undelivered, or the endpoints are as given |
| EndToEnd.FailLeavesExactly | pkg/controller/controller.go:116-139 | a failed common reconcile keeps both promises exactly when nothing it left unread is out of date |
| EndToEnd.TcpChangeExactly | pkg/controller/reconcile.go:147-176 | a changed TCP service leaves the system quiescent, and the endpoints right exactly when each TCP proxy of that service resolves as before |
| EndToEnd.RoutesNamedAlways | pkg/controller/converter.go:302-309 | on every run, tame or not, cached routes name the ingress they are stored under |
| EndToEnd.QuiescentRouting | pkg/proxy/config.go:59-122 | there, a host has routes exactly when a relevant ingress declares one, and a lookup finds a declared match that no declared match goes before, the first of its ingress; without a declared match it panics exactly when an empty prefix is declared, and else misses |
| EndToEnd.QuiescentRoutingUnique | pkg/proxy/config.go:59-122 | without clashes the first foremost match in the cluster is the outcome |
| EndToEnd.QuiescentRoutesExactly | pkg/controller/state.go:32-40 | there, the installed routes of a host are exactly those declared by ingresses whose class belongs to this controller |
| EndToEnd.QuiescentCertsExactly | pkg/controller/converter.go:91-100 | there, a host has a certificate exactly when such an ingress lists it in a TLS item with a secret |
| Progress.Settles | pkg/controller/controller.go:81-107 | from every ready state, tame internal steps, with the common stages reading the cluster, lead to quiescence |
| Progress.CanSettle | pkg/controller/reconcile.go:51-72 | every tame run can be continued by internal steps alone to a quiescent state over the same cluster, given that relevant ingresses compile, the common part loads, and no undelivered or unreconciled change is a harmful one |
| Progress.EveryStepAdvances | pkg/controller/controller.go:81-107 | once everything is delivered, whatever productive step is taken next is tame and brings the system closer to quiescence |
| Progress.EveryScheduleSettles | pkg/controller/controller.go:81-107 | from there no schedule of productive steps goes on for ever, and one can stop only where the system is quiescent |
| Progress.StartupConverges | cmd/main.go:81-105 | from any initial cluster whose relevant ingresses compile and which holds what Init reads, a run ends with the proxy running an aggregate of its build from scratch, its default certificate and its TCP endpoints |
| Progress.StartupConvergesExactly | cmd/main.go:88-93 | with no service or secret undelivered, the proxy can be brought a configuration without a change of the cluster exactly when the default secret and every TCP service load; otherwise Init stops or exits |
| Losses.ClassDeletionLost | pkg/controller/ingress.go:79-89 | from any quiescent state, deleting the class of its only ingress can end quiescent with the proxy still routing to it |
| Losses.ClassRemovalReachable | pkg/controller/state.go:55-72 | a concrete run of the whole system from the start that ends so |
| Losses.FailedReconcileLost | pkg/controller/controller.go:116-139 | from any quiescent state with a default secret and a TCP proxy, a new certificate and a deleted TCP service can end quiescent with the proxy serving the old certificate |
| Losses.FailCommonReachable | pkg/controller/controller.go:116-139 | a concrete run of the whole system from the start that ends so |
| Losses.TcpMoveLost | pkg/controller/reconcile.go:147-176 | from any quiescent state, a TCP service that moves leaves the proxy forwarding to the old endpoint with nothing outstanding |
| Losses.TcpStaleReachable | pkg/controller/reconcile.go:147-176 | a concrete run of the whole system from the start that ends so |
| Pipeline.ApplySettles | pkg/proxy/serve.go:153-162 | a middleware answers once, leaves the writer to the error path, hands it to a websocket, or continues |
| Pipeline.ExactlyOneStatus | pkg/proxy/serve.go:18-80 | for every configuration, request and library outcome the underlying writer accepts exactly one WriteHeader, or none after an upgraded websocket, a panicking lookup or a status below 100 |
| Pipeline.CallConcat | pkg/proxy/serve.go:153-162 | running a concatenated chain is running the first part with the second as continuation |
| Pipeline.ChainDecided | pkg/proxy/serve.go:153-162 | the first middleware that does not pass decides alone; the fallback runs, on the untouched writer, exactly when all pass |
| Pipeline.RouteGates | modules/modules.go:13-25 | on a chain in the shipped order the upstream is contacted exactly when all guards pass and the request is no upgrade, a websocket is dialled exactly when all pass and it is one, else the first failing guard gives the whole answer |
| Pipeline.UpstreamAnswer | pkg/proxy/serve.go:164-208 | the client gets 502 for a failed connection or round trip, 413 for a body that is too large, else the status of the upstream and its body |
| Pipeline.GuardAnswer | modules/auth/ipauth.go:41-49 | what does not pass is answered: 301 without TLS, 403 outside the allowlist or on the deny pattern |
| Pipeline.CredentialsAnswer | modules/auth/forward.go:48-105 | missing credentials get 401 and wrong ones 403; the auth service's 403 is passed on, its 2xx admits, any other answer redirects, and its failure is a 500 |
| Pipeline.SessionAnswer | modules/oidc/middlewares.go:115-128 | without a session a plain GET or HEAD is sent to log in and anything else gets 401; without access it gets 403 |
| Pipeline.CallbackAnswer | modules/oidc/middlewares.go:81-91 | only a GET of the callback path on a callback domain is a callback; it gets 400, 500 or a redirect by its outcome |
| Pipeline.UpgradeAnswer | modules/websocket/websocket.go:29-70 | an upgrade is dialled and handed over, gets the refusing upstream's status, or 500 |
| Pipeline.AdmittedExactly | pkg/proxy/serve.go:153-162 | no middleware stops a request exactly when each admits it by its own outcome |
| Pipeline.ServedByUpstream | pkg/proxy/serve.go:18-151 | a request on a resolved route that all admit gets what the upstream answers |
| Pipeline.ServedByGuard | pkg/proxy/serve.go:114-162 | one that the route's chain stops gets the answer of the first that does not admit it |
| Pipeline.ServedAtEntry | pkg/proxy/serve.go:37-80 | one that is stopped in front of all routes gets the answer of the first that does not admit it |
| Pipeline.ServedWithoutRoute | pkg/proxy/serve.go:18-112 | 503 without a configuration, 400 for a host that is no name, 404 without a host or a route, 500 when no request can be built |
| Server.RequestContext.HandleErrorPage | pkg/proxy/error.go:29-51 | writes the status, then a body unless the method is HEAD, and fails exactly when rendering fails |
| Server.RequestContext.Proxy | pkg/proxy/serve.go:164-208 | the mutable writer ends as specified, or it unwinds on a status that cannot be written |
| Server.RequestContext.HandleHttp | pkg/proxy/serve.go:91-151 | answers 400, 404 or 500, unwinds on a panicking lookup, or runs the route's chain |
| Server.RequestContext.ApplyMiddleware | pkg/proxy/serve.go:153-162 | each middleware makes its own test and answers, or calls the rest of the chain, as the continuation-passing chain does |
| Server.RequestContext.CallMiddleware | pkg/proxy/serve.go:153-162 | the recursive call on the mutable writer equals the continuation-passing chain |
| Server.ServeHTTP | pkg/proxy/serve.go:18-80 | a request against one snapshot has the specified outcome, with exactly one status unless it is an upgrade or panics |
| Server.ChainInOrder | pkg/controller/converter.go:379-388 | dropping uninterested modules keeps module order and the websocket stage |
| Server.ShippedInOrder | modules/modules.go:13-25 | the shipped list is in that order |
| Server.DeclaredRouteGates | pkg/controller/converter.go:364-391 | every route compiled from an ingress under such modules obeys the gate rule |
| Headers.ResponseHeaders.SetResponseHeaders | pkg/proxy/serve.go:210-233 | in any iteration order a header has the middleware's first value, else all upstream values, but for Keep-Alive, else the request id under X-Request-Id and what was there before; middleware cookies that serialise come last under Set-Cookie |
| Oidc.StepKeepsRooted | modules/oidc/oidc.go:84-112 | every cookie under a client's own key keeps the time of a verified login to that client |
| Oidc.AccessExactly | modules/oidc/middlewares.go:149-165 | access is given exactly when no list is, or the email is listed, or some group is |
| Oidc.DecideExactly | modules/oidc/middlewares.go:52-78 | for a cookie the client can open: the information used is the renewed one exactly when it has a refresh token, expires within five minutes and the provider answers; it admits, forbids or sends to log in exactly by client name, expiration and access |
| Oidc.UnreadableExactly | modules/oidc/jwt.go:73-93 | no cookie, a foreign one or one under another key sends to log in and sets none |
| Oidc.LoginAdmitsExactly | modules/oidc/oidc.go:48-63 | the cookie of a login without a refresh token admits exactly until its expiration, counted from the whole second it began in, and exactly those with access |
| Oidc.SessionBound | modules/oidc/middlewares.go:52-78 | on every run, a request admitted at t has a verified login to that client at some t0 with t0 <= t < t0 + expiration |
| Oidc.SharedKeyCrosses | modules/oidc/oidc.go:65-82 | a client that shares its key admits a session of the other client |
| Oidc.BoundedExactly | modules/oidc/middlewares.go:130-147 | the bound holds on every run exactly when no other client has the same key |
| Oidc.NoExpirationNoBound | modules/oidc/middlewares.go:141-146 | without an expiration one login admits a request after any delay |
| Oidc.SameSubjectSession | modules/oidc/oidc.go:114-152 | with a provider that keeps subjects on renewal, an admitted request acts for a subject that logged in within the expiration |
| Protection.GuardOnRoutes | modules/oidc/middlewares.go:39-79 | every route of an ingress with an OIDC annotation carries its guard |
| Protection.ServeReaches | pkg/proxy/serve.go:37-112 | a request that reaches an upstream was resolved to a route and reached it through that route's chain |
| Protection.ProtectedUpstream | modules/oidc/middlewares.go:39-79 | with guards decided by the sessions, a request that ServeHTTP lets reach an upstream, on the configuration installed in a quiescent state, goes to an ingress of this controller; if that has an OIDC annotation, only within the expiration of a verified login, by someone whose email or group its annotations list, if they list any |
| Protection.ResolvedExactly | pkg/proxy/config.go:59-84 | a request is looked up among the rules of its host, else of what follows its first label, else of those without a host, and nowhere exactly when there are none of these |
| Protection.InstalledEntryExactly | pkg/controller/converter.go:106-119 | in every quiescent state the installed configuration has the HTTPS redirect and the login callback in front of all routes exactly as configured |
| Protection.ServedExactly | pkg/proxy/serve.go:18-112 | in every quiescent state under the shipped modules the cluster decides what a request gets: 404 when no rule of its host matches, else the foremost match of an own ingress, whose upstream it reaches exactly when it meets that ingress's annotations, and whose answer it then gets |
| Lifecycle.Proxy.Start | pkg/proxy/proxy.go:148-200 | the loops follow the step function on every script, and the uninitialised-configuration panic is unreachable |
| Lifecycle.AfterReadyWell | pkg/proxy/proxy.go:112-118 | on every script: ready exactly while serving and before any report or shutdown; listeners start only with a configuration installed |
| Lifecycle.LatestInstalled | pkg/proxy/proxy.go:168-172 | on every script, a configuration received while waiting or serving is installed until the next one |
| Lifecycle.StartedExactly | pkg/proxy/proxy.go:148-163 | after a first configuration and listeners that come up, whatever comes in between, the state is: serving it, ready, nothing reported, four listeners and the TCP proxies awaited |
| Lifecycle.GivesUpExactly | pkg/proxy/proxy.go:102-161 | after a shutdown while waiting, or listeners that fail to start, it has left, was never ready, and no input changes that |
| Lifecycle.ServingExactly | pkg/proxy/proxy.go:163-190 | the whole state while serving: the last configuration, the reports in order, ready before any report or shutdown |
| Lifecycle.LeavesExactly | pkg/proxy/proxy.go:168-200 | with as many reports as are awaited it leaves, not ready, with all of them and the last configuration, and no input changes that |
| Lifecycle.ReadyOnce | pkg/proxy/proxy.go:163-190 | ready rises at most once, is true only with a configuration installed, and once down stays down |
| Lifecycle.LeavesAfterAllFour | pkg/proxy/proxy.go:148-200 | without TCP proxies the loop ends only after each of the four listeners has reported exactly once |
| Lifecycle.TcpLeavesEarly | pkg/proxy/proxy_tcp.go:24-50 | with any number of TCP proxies above zero there is a script that ends the loop before a listener reported |
| Lifecycle.LeavesAfterAllFourExactly | pkg/proxy/proxy_tcp.go:24-50 | the loop waits for all four listeners on every script exactly when there is no TCP proxy |

## Left out

- Sockets, TLS handshakes, the HTTP and QUIC servers, TCP copying and websocket frames: I/O; "a listener reports" and "an upgrade happened" remain.
- Cryptography, JWT and OAuth exchanges, password hashes, regular expressions, IDNA, templates: arbitrary outcomes. A cookie opens only under the key that sealed it.
- YAML decoding and configuration copying, except byte sizes: field-by-field plumbing. What the first common stage loads, or that it fails, is an input.
- Ingress status patching, the load-balancer status, events, logging and metrics: they do not feed routing.
- Locks: every locked operation is one atomic step at its end. What changes meanwhile is undelivered then, so its reads may see anything of it.
- A failing list call in the class handler: the source logs it and requeues nothing; the model's scan succeeds.
- Updates of an ingress class: its controller field is immutable in Kubernetes, and the source has no handler for them.
- An ingress rule without an HTTP part: the source dereferences it.
- The config-map watch: nothing fills the recorded config maps, and its request for a common reconcile is an unconditional step here.
- Shutdown of Run by its context, and the ticker, which does nothing.
- Controller.ReconcileAndAggregate: a route list is a sequence value held by a mutable host object, so the sharing of a slice's backing array is not captured.
- Headers.ResponseHeaders.SetResponseHeaders: header keys are taken as canonical already.
- Pipeline.ExactlyOneStatus: a Body event stands for a possible body write, and informational responses, which the HTTP client consumes, do not occur.
- Progress.Settles: says that internal steps lead to quiescence, not that they are taken; Progress.EveryScheduleSettles covers every schedule once everything is delivered.
- Progress.CanSettle: as for Progress.Settles.
- Progress.StartupConverges: as for Progress.Settles.
- Real-IP detection, request ids and the status page: small functions that feed only headers or probes.
- pkg/controller/secrets.go: unimplemented stubs.
