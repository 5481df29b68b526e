# kotsadm app versions, registry storage and web front end, in Dafny

This project models three pieces of kotsadm, the admin console of KOTS:

* **The app-version engine** (`kotsadm/pkg/version/version.go`). It covers:
  * allocating the next sequence number of an app;
  * creating a version from a directory of kots kinds;
  * the GitOps commit hook when a downstream has no GitOps configuration;
  * listing an app's versions in `update_cursor, sequence` order;
  * the deploy transaction that moves the downstream pointer and the status together;
  * the two joins of a version's application descriptor against its kots application spec, which give the realized links and the forwarded ports.

  The Postgres tables are map fields of the class `AppVersions.Store`. Its methods update them in place.
* **The storage registry objects** (`pkg/kotsadm/objects/distribution_objects.go`). They cover:
  * the loop that picks the PersistentVolumeClaim storage bounds out of a LimitRange;
  * the size check that clamps the 4Gi request to those bounds and asks the operator to confirm;
  * the registry's pod security context;
  * the labels of the registry config map.
* **The web front end that `ensureWeb` installs** (`pkg/kotsadm/web.go`). It covers:
  * filling in the hostname, service type and node port from the operator's entries;
  * the hostname validator;
  * the start script the hostname is written into;
  * creating the config map, deployment and service only when they are absent, in that order, stopping at the first failure.

`go_text.dfy` holds the few pieces of Go's standard library the core relies on:
* `fmt`'s `%d`;
* `strconv.Atoi`, on a 64-bit platform;
* `strings.Split` with a one-character separator.

Outside effects are parameters:
* the database's and API server's failures, as fault values and failure sets;
* `time.Now()`, as a timestamp;
* the operator's typed entries, as a sequence tried in order, with Ctrl-C after the last one;
* the decoded kots kinds and the outcome of secret replacement, as values.

Three behaviours of the code shape the model:
* The deploy's two UPDATEs filter on the app only (`version.go` lines 142 and 148). They move the pointer of every downstream cluster of the app, and mark that sequence deployed on every cluster, not just one.
* Sequence allocation takes no per-app lock (`version.go` lines 22-33). It is `max(sequence) + 1` as read.
* `createVersion` does not notify GitOps itself. It hands a `downstreamGitOps` to the store's `CreateAppVersion` (`version.go` line 95), and the store makes the commit.

## Model

| member | source | states |
|---|---|---|
| GoText.IntToDecimal | kotsadm/pkg/version/version.go:197 | library (`fmt`'s `%d`): the text is never empty and starts with `-` exactly when the number is negative |
| GoText.DecimalRoundTrip | kotsadm/pkg/version/version.go:197 | library lemma about `%d`: the digits printed for a natural number are read back as that number |
| GoText.Atoi | pkg/kotsadm/web.go:342 | library (`strconv.Atoi` on a 64-bit platform): only non-empty text is accepted, and only for values in the 64-bit range |
| GoText.AtoiReadsDecimal | pkg/kotsadm/web.go:341-345 | library lemma: `Atoi` reads every 64-bit number `%d` prints as itself |
| GoText.Split | pkg/kotsadm/web.go:332 | library (`strings.Split`): one piece more than there are separators, and no piece holds the separator |
| GoText.SplitJoin | pkg/kotsadm/web.go:332 | library lemma: joining the pieces of `strings.Split` with the separator gives back the input |
| GoText.SplitAtOnlySeparator | pkg/kotsadm/web.go:332-335 | a string with exactly one separator, at index i, splits into exactly the two pieces before and after i |
| GoText.OnlySeparatorIndex | pkg/kotsadm/web.go:332-335 | a string with one separator has it at an index with no separator before or after it |
| SpecJoin.LocalhostURIReadsBack | kotsadm/pkg/version/version.go:197 | a rewritten URI is `http://localhost:` followed by text that `Atoi` reads back as the port's local port, for every 64-bit local port |
| SpecJoin.Forward | kotsadm/pkg/version/version.go:249-254 | a forwarded port copies the service name, service port, local port and application URL of its port entry |
| SpecJoin.LastMatchingPort | kotsadm/pkg/version/version.go:195-199 | the inner loop's choice is none exactly when no port's application URL equals the link's URL, otherwise the matching port with no later match |
| SpecJoin.RealizedLinksAt | kotsadm/pkg/version/version.go:192-205 | `RealizedLinks`: one realized link per descriptor link in order; its title is the description, and its URI is the link's URL when no port matches, otherwise `http://localhost:<localPort>` of the last matching port |
| SpecJoin.RealizedLinkIs | kotsadm/pkg/version/version.go:193-205 | the i-th realized link is the i-th descriptor link realized on its own, so the outer loop handles each link independently |
| SpecJoin.RewrittenToLastMatch | kotsadm/pkg/version/version.go:194-199 | a matching port with no later match is the one whose `http://localhost:<localPort>` the link is rewritten to |
| SpecJoin.RealizedLinksLength | kotsadm/pkg/version/version.go:192-205 | there are as many realized links as descriptor links |
| SpecJoin.RewriteURL | kotsadm/pkg/version/version.go:194-199 | the inner loop ends with the rewritten URL of the link: the last matching port's localhost URI, or the link's URL |
| SpecJoin.RealizeLinks | kotsadm/pkg/version/version.go:192-207 | the nested loops build exactly the realized links of the descriptor's links against the ports |
| SpecJoin.MatchingPortsMembership | kotsadm/pkg/version/version.go:247-256 | `MatchingPorts`: for one link, a forwarded port is produced exactly when some port entry matches the link's URL and forwards to it |
| SpecJoin.ForwardedPortsMembership | kotsadm/pkg/version/version.go:245-260 | `ForwardedPorts`: a forwarded port appears exactly when some (link, port) pair has equal URLs and the port forwards to it |
| SpecJoin.MatchingPortsCount | kotsadm/pkg/version/version.go:247-256 | `MatchingPorts` holds exactly one entry per port index whose application URL equals the link's URL |
| SpecJoin.ForwardedPortsCount | kotsadm/pkg/version/version.go:245-258 | `ForwardedPorts` holds exactly one entry per (link, port) index pair with equal URLs, so nothing is merged or dropped |
| SpecJoin.ForwardedPortsAppend | kotsadm/pkg/version/version.go:246-258 | link-major order: the result for two runs of links is the concatenation of the two results |
| SpecJoin.MatchingPortsAppend | kotsadm/pkg/version/version.go:247-257 | port-minor order: the matches among two runs of ports are the two match lists concatenated |
| SpecJoin.ForwardedPortsWithoutPorts | kotsadm/pkg/version/version.go:241-243 | with no application ports nothing is forwarded, so the early return agrees with the join |
| SpecJoin.DuplicateLinksForwardTwice | kotsadm/pkg/version/version.go:246-258 | duplicates are kept: two links to one port's URL forward that port twice |
| SpecJoin.RewriteUsesLastForwardedPort | kotsadm/pkg/version/version.go:194-199 | a link's URL is rewritten exactly when it has a forwarded port, and the rewrite uses the last of those ports |
| SpecJoin.ForwardPorts | kotsadm/pkg/version/version.go:245-260 | the nested loops build exactly the forwarded ports of the links against the ports |
| AppVersions.InsertKey | kotsadm/pkg/version/version.go:106 | inserting a new key into a strictly sorted listing keeps it strictly sorted and adds exactly that key |
| AppVersions.SortKeys | kotsadm/pkg/version/version.go:106 | the listing of a set of keys is strictly sorted by (update_cursor, sequence) and holds exactly those keys |
| AppVersions.SortedListingUnique | kotsadm/pkg/version/version.go:106 | two strictly sorted listings of the same keys are equal, so the ordered listing is determined |
| AppVersions.ListingOrderExample | kotsadm/pkg/version/version.go:106 | cursors 2, 1, 1 at sequences 0, 1, 2 are listed as sequences 1, 2, 0 |
| AppVersions.PointDownstreams | kotsadm/pkg/version/version.go:142-146 | the first update adds and removes no row, points every downstream cluster of the app at the sequence, and leaves other apps' rows unchanged |
| AppVersions.MarkDeployed | kotsadm/pkg/version/version.go:148-152 | the second update adds and removes no row, marks each cluster's row of the app for that sequence deployed at `now`, and leaves other apps' rows and the app's rows for other sequences unchanged |
| AppVersions.DeployIdempotent | kotsadm/pkg/version/version.go:142-152 | deploying the same sequence twice gives the state of one deploy stamped with the later time |
| AppVersions.RedeployOnlyRestamps | kotsadm/pkg/version/version.go:142-152 | re-deploying the current, already deployed sequence leaves the pointers and every status unchanged |
| AppVersions.RowRealizedLinks | kotsadm/pkg/version/version.go:175-207 | an empty descriptor gives no links; the result is an error exactly when the descriptor cannot be decoded or the kots spec is empty or cannot be decoded; otherwise it is the join, one realized link per descriptor link |
| AppVersions.RowForwardedPorts | kotsadm/pkg/version/version.go:224-260 | either spec empty gives no ports; the result is an error exactly when neither spec is empty and one cannot be decoded |
| AppVersions.RowForwardedPortsIsJoin | kotsadm/pkg/version/version.go:224-243 | for two decoded specs, the early returns give the same forwarded ports as the join |
| AppVersions.ResolvedAppName | kotsadm/pkg/version/version.go:79-87 | the version's name is the spec title when it is not empty, otherwise the stored app's name, and an error when the app is unknown |
| AppVersions.Store.MaxSequence | kotsadm/pkg/version/version.go:26-29 | `max(sequence)` scans to nothing exactly when the app has no versions, otherwise to the largest stored sequence |
| AppVersions.Store.GetNextAppSequence | kotsadm/pkg/version/version.go:22-33 | without a current sequence the answer is 0; with one it fails exactly when the app has no versions, and otherwise is one more than every stored sequence |
| AppVersions.Store.CreateAppVersion | kotsadm/pkg/version/version.go:95-98 | it succeeds exactly when the store does not fail and the sequence is free: with a current sequence the app must have versions, and the new sequence is one more than the largest stored one; without one the new sequence is 0, and 0 must not be taken; success inserts exactly one new row and adds exactly its sequence to the app's sequences, failure leaves the table unchanged, and other tables are untouched |
| AppVersions.Store.CreateVersionFromFiles | kotsadm/pkg/version/version.go:73-101 | it succeeds exactly when the kots kinds load, the app name resolves, secrets are replaced, the store does not fail and the sequence is free; each failure leaves the versions unchanged; success inserts the row built from the kots kinds, the resolved name and icon, and the source, under sequence 0 without a current sequence and one more than the largest stored sequence with one |
| AppVersions.Store.CreateFirstVersion | kotsadm/pkg/version/version.go:37-39 | it succeeds exactly when the kots kinds load, the name resolves, secrets are replaced, the store does not fail and sequence 0 is free; success inserts exactly the new row under sequence 0, which becomes the app's only new sequence |
| AppVersions.Store.CreateVersion | kotsadm/pkg/version/version.go:43-45 | it succeeds exactly when the kots kinds load, the name resolves, secrets are replaced, the store does not fail and the app has versions; success inserts exactly the new row, numbered one more than the largest stored sequence of the app |
| AppVersions.SequencesStayGapFree | kotsadm/pkg/version/version.go:22-45 | with versions numbered 0 to n - 1, a first version or an update as those contracts number it gets sequence n, so the app's versions stay numbered 0 to n without gaps |
| AppVersions.Store.CreateGitOpsDownstreamCommit | kotsadm/pkg/version/version.go:50-69 | no GitOps configuration gives an empty URL and no error; a failed lookup is an error; a URL is returned only from a commit for a configured downstream of a known app |
| AppVersions.Store.ListSequences | kotsadm/pkg/version/version.go:105-110 | the query returns the app's (update_cursor, sequence) keys, each exactly once, in strictly ascending order |
| AppVersions.Store.GetAppVersion | kotsadm/pkg/version/version.go:120-126 | the stored row, nothing for a missing one, or an error |
| AppVersions.Store.GetVersions | kotsadm/pkg/version/version.go:104-130 | fails exactly when the query fails or a lookup of one of the app's sequences fails; otherwise returns exactly the app's stored, non-missing rows in (update_cursor, sequence) order |
| AppVersions.Store.DeployVersion | kotsadm/pkg/version/version.go:133-159 | it succeeds exactly when no step fails; success applies both updates, and any failure leaves both tables as they were (rollback) |
| AppVersions.Store.GetRealizedLinksFromAppSpec | kotsadm/pkg/version/version.go:161-208 | no row or an empty app spec gives no links; an undecodable spec is an error; otherwise the realized links of the row's specs |
| AppVersions.Store.GetForwardedPortsFromAppSpec | kotsadm/pkg/version/version.go:210-261 | no row, either spec empty, or no ports gives no ports; an undecodable spec is an error; otherwise the forwarded ports of the row's specs |
| DistributionObjects.LastStorageBound | pkg/kotsadm/objects/distribution_objects.go:91-104 | the bound is absent exactly when no PersistentVolumeClaim item sets `storage` on that side, otherwise it is that of the last item that does |
| DistributionObjects.PvcStorageBounds | pkg/kotsadm/objects/distribution_objects.go:87-104 | the loop ends with the last PVC item's `storage` minimum and maximum |
| DistributionObjects.CandidateSize | pkg/kotsadm/objects/distribution_objects.go:249-262 | a too-small request takes the minimum, which wins over the maximum; a too-large request takes the maximum; an in-bounds request is kept; with min <= max the result lies between them |
| DistributionObjects.PromptForSizeIfNotBetween | pkg/kotsadm/objects/distribution_objects.go:249-285 | an acceptable size is returned without asking; otherwise the clamped size if the operator confirms, and nothing (exit) on Ctrl-C |
| DistributionObjects.SecurityContextFor | pkg/kotsadm/objects/distribution_objects.go:114-120 | outside OpenShift the pod runs as user 1000 with fsGroup 1000, and on OpenShift both are unset |
| DistributionObjects.DistributionStatefulset | pkg/kotsadm/objects/distribution_objects.go:85-246 | without a LimitRange the claim requests 4Gi; with one it requests the clamped size, and exits only if that differs and the operator interrupts; the statefulset has that security context, name and namespace |
| DistributionObjects.DistributionConfigMap | pkg/kotsadm/objects/distribution_objects.go:17-30 | the labels are the kotsadm labels with `kotsadm` set to `application` and all others kept; name and namespace as given |
| KotsadmWeb.ValidateHostname | pkg/kotsadm/web.go:322-348 | input with more than one colon is refused with "only hostname or hostname:port are allowed formats", and accepted input has at most one colon |
| KotsadmWeb.ValidateHostnameAccepts | pkg/kotsadm/web.go:322-348 | a hostname is accepted exactly when it is a DNS-1123 subdomain, or has one colon with a DNS-1123 subdomain before it and an `Atoi` integer after it |
| KotsadmWeb.AcceptedHostnameIsSedSafe | pkg/kotsadm/web.go:322-348 | an accepted hostname contains no `/`, `'` or `&`, so it cannot break the start script's `sed` commands |
| KotsadmWeb.HostPortIsSedSafe | pkg/kotsadm/web.go:331-346 | a `host:port` entry with a DNS-1123 host and an `Atoi` port contains no `/`, `'` or `&` |
| KotsadmWeb.AtoiCharacters | pkg/kotsadm/web.go:342 | text `Atoi` accepts consists only of digits and signs |
| KotsadmWeb.SubdomainCharacters | pkg/kotsadm/web.go:324 | `IsDNS1123Subdomain`: a DNS-1123 subdomain consists only of lower-case letters, digits, `-` and `.` |
| KotsadmWeb.SplitCovers | pkg/kotsadm/web.go:332 | every non-separator character lies in one of the pieces of the split |
| KotsadmWeb.SlotCount | pkg/kotsadm/web.go:75-88 | the number of hostname slots is the number of slot pieces in the template |
| KotsadmWeb.TemplateSlots | pkg/kotsadm/web.go:75-89 | a format string has one `%s` fewer than it has texts |
| KotsadmWeb.TemplateAlternates | pkg/kotsadm/web.go:75-89 | texts and `%s` alternate in a format string, which starts and ends with a text |
| KotsadmWeb.StartScriptHasEightSlots | pkg/kotsadm/web.go:75-89 | the start script writes the hostname into eight places, one per `%s`, each right after a text |
| KotsadmWeb.RenderAppend | pkg/kotsadm/web.go:75-88 | rendering a concatenated template is the concatenation of the renderings |
| KotsadmWeb.RenderIsInterpolate | pkg/kotsadm/web.go:75-89 | `Render` of a format string's template is `fmt.Sprintf` of it with every `%s` taking the hostname |
| KotsadmWeb.RenderAtSlot | pkg/kotsadm/web.go:75-88 | `Render`: at every slot the rendered script holds the hostname verbatim between the surrounding text |
| KotsadmWeb.FirstValidIndex | pkg/kotsadm/web.go:350-361 | the prompt stops at an entry that passes validation, and every entry before it fails |
| KotsadmWeb.FirstValidHostname | pkg/kotsadm/web.go:350-361 | the prompt's answer is the first entry that passes validation, and Ctrl-C happens exactly when every entry fails it |
| KotsadmWeb.PromptForHostname | pkg/kotsadm/web.go:350-361 | the loop returns the first valid entry, or exits |
| KotsadmWeb.FirstNodePort | pkg/kotsadm/web.go:273-308 | the node port is the `Atoi` value of the first entry `Atoi` accepts, and Ctrl-C happens exactly when `Atoi` rejects every entry |
| KotsadmWeb.PromptForWebNodePort | pkg/kotsadm/web.go:291-306 | the loop returns the value of the first entry `Atoi` reads, or exits |
| KotsadmWeb.ToInt32 | pkg/kotsadm/web.go:266 | `int32(n)` lies in the 32-bit range, is congruent to n modulo 2^32, and is n itself when n fits |
| KotsadmWeb.DeployOptions.PromptForWebServiceType | pkg/kotsadm/web.go:245-271 | the chosen type is returned; only NodePort asks for the node port and stores it truncated to 32 bits; Ctrl-C exits; nothing else in the options changes |
| KotsadmWeb.WebScriptsConfigMap | pkg/kotsadm/web.go:65-89 | the config map holds exactly `start-kotsadm-web.sh`, whose text is the start script's nine texts with the hostname between each two |
| KotsadmWeb.WebServiceSpec | pkg/kotsadm/web.go:196-208 | NodePort and LoadBalancer map to their types and every other string to ClusterIP; port 3000 named `http`; the node port is set only for NodePort, and then is the option's node port converted by `int32` |
| KotsadmWeb.EnsureObject | pkg/kotsadm/web.go:58-100 | create-if-absent: an existing object is never modified; a Get error other than NotFound, or a failed create, changes nothing and is reported; otherwise the absent object is created, exactly that one being added |
| KotsadmWeb.Cluster.EnsureWebConfig | pkg/kotsadm/web.go:58-100 | the `kotsadm-web-scripts` config map, with the start script rendered on the hostname, is created when absent; deployments and services are untouched |
| KotsadmWeb.Cluster.EnsureWebDeployment | pkg/kotsadm/web.go:102-193 | the `kotsadm-web` deployment is created when absent; config maps and services are untouched |
| KotsadmWeb.Cluster.EnsureWebService | pkg/kotsadm/web.go:195-243 | the `kotsadm-web` service of the chosen type is created when absent; config maps and deployments are untouched |
| KotsadmWeb.FillWebOptions | pkg/kotsadm/web.go:25-41 | the hostname and service type are prompted for only when empty and kept otherwise; the node port changes only when NodePort is chosen; the process exits exactly when a needed prompt is interrupted |
| KotsadmWeb.EnsureWeb | pkg/kotsadm/web.go:24-56 | the options are filled as above, then the config map, deployment and service are ensured in that order; a step runs only when the previous ones passed, and the result is success exactly when all three pass |

## Left out

* The concurrency race on `max(sequence) + 1`, where two creators read the same maximum, is not modelled. Each method runs alone.
* `update_cursor` is modelled as an integer compared numerically. The real column is text, may be NULL, and is ordered by the database's collation.
* `LoadKotsKindsFromPath`, `ReplaceSecretsInPath`, the YAML decoder, the store's `GetApp` and `GetAppVersion`, and the GitOps package are calls into code this model cannot see. They become parameters: a loaded `KotsKinds` or an error, an outcome, a `StoredSpec` of empty, undecodable or decoded, the `apps` map, and lookup-failure and missing sets.
* The store's `CreateAppVersion` is not part of this model. `AppVersions.Store.CreateAppVersion` stands for it: it allocates the sequence as `GetNextAppSequence` does and inserts the row. It assumes a primary key on (app, sequence) that refuses a taken key; the store's schema is not part of this model. Archiving the files, the per-downstream rows it writes and its GitOps notification are left out.
* AppVersions.Store.CreateGitOpsDownstreamCommit: `filesInDir` and `downstreamName` are not modelled. It does not state which slug, name and sequence are passed to the commit, because the commit is a parameter.
* AppVersions.Store.GetNextAppSequence: a failure of the `select max(sequence)` query itself (`version.go` lines 26-27) is not modelled. Only the scan of NULL for an app without versions fails.
* The type assertions `obj.(*applicationv1beta1.Application)` and `obj.(*kotsv1beta1.Application)` (`version.go` lines 184, 190, 233, 239) panic when a spec decodes to another kind. The model has no such case: a spec is empty, undecodable or a decoded document of the expected kind.
* A database failure while scanning a row in `GetVersions` (lines 115-118), and a scan failure other than "no rows" in the link and port reads (lines 168-173, 217-222), are not modelled. Those reads return either the row or nothing.
* AppVersions.Store.GetRealizedLinksFromAppSpec: an empty kots application spec next to a non-empty descriptor is treated as an undecodable spec. The Kubernetes decoder rejects an empty document.
* The error path after `strconv.Atoi` in `promptForWebNodePort` (lines 300-303) cannot be reached: the prompt only returns entries that `Atoi` already accepted. It is not modelled.
* Each prompt (hostname, node port, service-type select, size confirmation) is modelled as the operator's entries taken in order. Running out of entries stands for Ctrl-C, which exits the process. Terminal rendering, the default values and the prompt templates are left out.
* DistributionObjects.PromptForSizeIfNotBetween: a "no" at the confirmation re-prompts in the source. The model therefore has only the two answers that end the prompt, confirm and Ctrl-C.
* Quantities are whole numbers of bytes, and `Cmp` is integer comparison. The `resource.Quantity` text format is not modelled.
* `DistributionService` and the registry's `config.yml` contents are not modelled. `types.GetKotsadmLabels()` is a parameter.
* Only some fields of the Kubernetes objects are modelled: the statefulset's storage request, security context, name and namespace, and the web deployment's image, port, arguments and scripts volume. Probes, volumes and other fields are left out.
* `IsDNS1123Subdomain` states the syntax only. Kubernetes' error text for each kind of violation is not modelled, and every violation gives one message.
* Go's `int` is unbounded here, apart from `Atoi`'s 64-bit range and the explicit `int32` truncation of the node port.
