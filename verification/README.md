# Interlock: a verified model of its load balancer logic

Interlock watches the containers of a Docker Swarm cluster and keeps nginx or HAProxy proxies
configured for them. This project models the parts of it that hold state or decide something and
proves what they keep:

- the two configuration generators, which fill about ten maps in one pass over the container list
  and turn the maps into hosts, and the templates that turn hosts into a configuration file;
- the reload protocol of the load balancer extension: events set a cache entry, its expiry wakes
  the update handler, and the handler skips when a newer entry is present;
- the split of proxy restarts between several Interlock instances;
- the container poller with its digest, and the server's goroutines that carry its messages;
- the parser of the Swarm node list, and the choice of a backend address from a port map.

`dafny verify dfyconfig.toml` checks everything.

## How the model is built

A container is a record `Containers.Info` of its looked-up labels and its resolved address, or
`Unavailable` when inspecting it fails. The generators are methods that loop over the list and
update maps (`Nginx.GenerateProxyConfig`, `HAProxy.GenerateProxyConfig`). Their specification is a
group-by: `Containers.Group` selects the containers of an effective domain, and `HostFor` reads
the host of a domain off that group, with no map and no order of updates. Go's map iteration is an
arbitrary choice of the next key, so every result about hosts holds for each iteration order.
`Labels` states the same hosts a second time without that grouping: which container, by its position
in the list, decides each field.

| module | what it models |
|---|---|
| `Wrappers`, `Text`, `Lists` | optional values, Go's string functions, lists and maps of lists |
| `Containers` | inspected containers, grouping, and the write rules of the generators' maps |
| `Nginx`, `HAProxy` | the generators and their specifications |
| `Labels`, `Contents` | the generated hosts and the emitted files read off the container records, field by field |
| `Routing`, `Conservation` | what relates the hosts of the two generators, and what each keeps |
| `NginxTemplate`, `NginxText`, `HAProxyTemplate` | the host-dependent part of the templates |
| `Requests` | which backend the HAProxy frontend picks, and when both proxies serve a request alike |
| `Addresses` | address resolution over the port map |
| `Reload`, `ServerNetwork`, `Pipeline` | the protocols, as state machines, and their composition |
| `Restart` | node selection and the restart split |
| `Sorting`, `Json`, `Poller` | the digest of a listing and the poller's runs |
| `SwarmNodes` | the node list parser |

The goroutine protocols are state machines whose events are the steps of one goroutine, or of the
two ends of an unbuffered channel. Runs are sequences of events, so a lemma about all runs is a
lemma about all interleavings. `Pipeline` composes the server's network with the load balancer.

## What the code does not keep

Some properties that one would expect hold only under a condition. Each is proved with its exact
condition or with the family of inputs that breaks it:

- The hosts of an alias carry different addresses in the two backends when two domains share it:
  always when all addressed containers of one of the domains are accepted and declare it, and with
  pairwise distinct addresses in any case (`Routing.SharedAliasDisagrees`).
  `Routing.RoutingAgreesExactly` gives the condition on the labels.
- HAProxy tests a prefix of the Host header, or of the path, and takes the first host that fits, in
  map order, so a name can take the requests of a longer one. `Requests.OwnHostExactly` says when
  requests for a name go to its own host under every order, `Requests.OwnBackendExactly` what that
  means without context roots, and `Requests.SentAlikeExactly` when both proxies send the requests
  to the same servers.
- In HAProxy a name that is only an alias has a host without any check, options, balance algorithm
  or SSL settings (`HAProxy.AliasHostUnset`). It agrees with the host of its container's domain
  exactly when that domain's labels set nothing, which takes explicitly empty labels for balance
  algorithm and TLS mode (`HAProxy.AliasSettingsExactly`).
- An alias equal to another domain, on a container with a context root, makes nginx declare one
  upstream twice when no later container sets the context root of either name
  (`NginxTemplate.AliasedDomainDuplicates`). With the same proviso any alias of a container with a
  context root makes two HAProxy backends of one name (`HAProxyTemplate.ContextAliasDuplicates`).
  Without context roots two names that differ only in dots and underscores do
  (`HAProxyTemplate.BackendsDistinct`). The exact conditions, for all labels, are
  `NginxTemplate.DeclaredOnceExactly` and `HAProxyTemplate.BackendsDistinctExactly`.
- The nginx template emits `/nginx_status` inside the range over websocket endpoints, so a host with
  two endpoints repeats a location (`NginxText.LocationsDistinct`). The default server repeats one
  for a context root `/` or `/nginx_status` and for two hosts with one path
  (`NginxText.DefaultLocationsDistinct`).
- With at most one node found, every instance restarts all proxies (`Restart.AtMostOnce`). An
  Interlock container that has stopped is still counted as a node, and where the instances agree on
  the nodes nobody restarts its share (`Restart.StoppedNodeLosesShare`).
  `Restart.ExactlyOnceExactly` is the exact condition for restarting each proxy once when the
  instances find the same nodes, `Restart.RecognisedInstancesExactly` when each recognised container
  runs an instance, and `Restart.OnceByPosition` in every case.
- The poller's digest does not see which container publishes which port (`Poller.DigestFaithful`).
- `BackendAddress` panics under some map order exactly when a port that the label names is not
  published (`Addresses.PanicExactly`), and its address can depend on map order
  (`Addresses.OrderIndependentExactly`).

## Model

| member | source | states |
|---|---|---|
| `Nginx.GenerateProxyConfig` | ext/lb/nginx/generate.go:13-204 | For every container list: the hosts are named by the keys, character by character, of the inspected containers that have a domain or a context root and get an address. There is exactly one for each, and it is the group-by host of that key: its servers are the group's addresses in list order, its flags come from the last routed container even if that one is skipped later, its certificate and key from the last one that has the label. Networks are the overlay networks of the accepted containers. Unavailable containers are skipped |
| `Nginx.Record` | ext/lb/nginx/generate.go:50-159 | One iteration keeps all twelve maps equal to the group-by over the containers read so far, whichever early exit is taken |
| `Nginx.RecordLabels` | ext/lb/nginx/generate.go:58-92 | The flags and certificates of a container are recorded before it is known whether it gets an address; upstreams, endpoints and networks stay as they are |
| `Nginx.BuildHosts` | ext/lb/nginx/generate.go:162-195 | From maps that agree with the group-by, every iteration order of the map gives one host for each key, each the host that the group-by specifies |
| `Nginx.HostAtIsHostFor` | ext/lb/nginx/generate.go:163-192 | The host assembled from the maps' entries at a key, with Go's zero values for missing ones, is the group-by host of that key |
| `HAProxy.GenerateProxyConfig` | ext/lb/haproxy/generate.go:12-200 | Fails exactly when some inspection fails. Otherwise the hosts are named by the keys, character by character, and the aliases of the inspected containers that have a domain or a context root, a numeric interval and an address. There is one for each name; its upstreams are those containers in list order with multiplicity; the check is the first container's that has one, the options the last's, the other settings those of the last container with a parsable interval |
| `HAProxy.Record` | ext/lb/haproxy/generate.go:48-171 | One iteration keeps all ten maps equal to the specification over the containers read so far, whichever early exit is taken |
| `HAProxy.RecordSettings` | ext/lb/haproxy/generate.go:62-96 | First-wins for the check, last non-empty wins for the options and last-wins for the rest, recorded before the address is known |
| `HAProxy.UpstreamTableStep` | ext/lb/haproxy/generate.go:162-171 | Appending an accepted container under each alias and under its domain keeps every entry equal to the upstreams due to that name |
| `HAProxy.BuildHosts` | ext/lb/haproxy/generate.go:174-191 | Every iteration order gives one host for each name, each the specified one |
| `HAProxy.HostAtIsHostFor` | ext/lb/haproxy/generate.go:175-188 | The host assembled from the maps' entries at a name is the specified host |
| `HAProxy.SettingsAreTheDomains` | ext/lb/haproxy/generate.go:60-96 | The settings of an emitted host depend on the containers of its own domain only: for any two container lists in which those are the same, so are the settings, whatever declares the name as alias |
| `HAProxy.AliasHostUnset` | ext/lb/haproxy/generate.go:162-188 | An emitted host whose name is no container's domain has no check, options, rewrite, SSL settings or balance algorithm |
| `HAProxy.AliasSettingsExactly` | ext/lb/haproxy/generate.go:162-188 | The host of an alias that is no domain has the settings of its accepted container's domain exactly when the labels of that domain set nothing |
| `Containers.KeyExactly` | ext/lb/nginx/generate.go:50-56 | The key of a container is its context root with '_' for each '/', or else its hostname, a dot and its domain when it has a hostname of its own, or else its domain, each character in its place; no other string is |
| `Containers.RoutedMembers` | ext/lb/nginx/generate.go:28-46 | The routed containers are exactly the inspected ones with a domain or a context root |
| `Labels.NginxFlags` | ext/lb/nginx/generate.go:62-74 | A host has the configured ports, and the SSL, rewrite and hash labels of the container at the last position of its key |
| `Labels.NginxCert` | ext/lb/nginx/generate.go:79-85 | A host's certificate is the label of the container at the last position of its key that has one |
| `Labels.NginxCertKey` | ext/lb/nginx/generate.go:87-92 | A host's certificate key is the label of the container at the last position of its key that has one |
| `Labels.NginxNoCert` | ext/lb/nginx/generate.go:168-169 | Without such a container a host has no certificate, and no key |
| `Labels.NginxServers` | ext/lb/nginx/generate.go:138-159 | A host's servers are the addresses at exactly the positions of its key's addressed containers, ascending; its names are its key and the aliases at those positions, its endpoints the endpoints |
| `Labels.NginxRoot` | ext/lb/nginx/generate.go:58-61 | A host's context root has the path of the container at the last position that has its name as key, or as alias with an address, and as name that path with '_' for '/' |
| `Labels.ProxySettings` | ext/lb/haproxy/generate.go:83-96 | A host's SSL settings and balance algorithm are those at the last position of its key with a numeric interval |
| `Labels.ProxyRewrite` | ext/lb/haproxy/generate.go:60 | A host's rewrite flag is that at the last position of its key, whatever the interval |
| `Labels.ProxyCheck` | ext/lb/haproxy/generate.go:69-78 | A host's check is that at the first position of its key with a numeric interval and a check |
| `Labels.ProxyOptions` | ext/lb/haproxy/generate.go:85-90 | A host's options are those at the last position of its key with a numeric interval and options |
| `Labels.ProxyNoCheck` | ext/lb/haproxy/generate.go:182-184 | Without such a position a host has no check, and no options |
| `Labels.ProxyRoot` | ext/lb/haproxy/generate.go:56-59 | A host's context root comes from the last position that has its name as key, or as alias once accepted |
| `Labels.ProxyUpstreams` | ext/lb/haproxy/generate.go:148-171 | Each upstream of a host has the name, address and interval of a container in the list, in list order; the container at a position occurs as often as its aliases have the name, once more if that is its key, and never without a numeric interval or an address |
| `Containers.LastWinsStep` | ext/lb/nginx/generate.go:70-92 | An unconditional or guarded overwrite makes an entry that of the last container of its group that passes the guard |
| `Containers.FirstWinsStep` | ext/lb/haproxy/generate.go:69-78 | Writing only absent keys makes an entry that of the first container of its group that passes the guard |
| `Containers.RootTableStep` | ext/lb/nginx/generate.go:148-155 | A context root is that of the last container that has the name as its effective domain, or as an alias once accepted |
| `Containers.NetworkTableStep` | ext/lb/nginx/generate.go:97-112 | Networks are exactly the labels of accepted overlay containers |
| `Routing.RoutingAgreesExactly` | ext/lb/haproxy/generate.go:162-191 | For any hosts the two generators may return and any name: if every container weighs the same for the name in both, the HAProxy host of the name and each nginx host listing it have the same address sequence, and both know the name or neither does. With pairwise distinct addresses the converse holds too |
| `Routing.DisciplinedLabelsAgree` | ext/lb/nginx/generate.go:148-195 | When intervals parse, containers of a domain declare the same distinct aliases, and no alias is shared between domains or is a domain, the hosts of every name carry the same address sequence in both configurations |
| `Routing.SharedAliasDisagrees` | ext/lb/haproxy/generate.go:162-171 | For an alias declared by accepted containers of two domains the hosts carry different addresses, if addresses are pairwise distinct or every addressed container of one of the two domains serves the alias |
| `Requests.PickedExactly` | ext/lb/haproxy/template.go:36-41 | The frontend picks some backend exactly when a served name passes its test: the name is a prefix of the request's host, or the name's context root one of its path |
| `Requests.OwnHostExactly` | ext/lb/haproxy/template.go:36-47 | For all labels and any request that passes a served name's test, by host or by path: every order of the hosts sends it to the host of that name and to no other exactly when no other served name's line applies to the request and none has the same backend |
| `Requests.OwnBackendExactly` | ext/lb/haproxy/template.go:36-41 | Without context roots, every order of the hosts sends requests for a served name to the host of that name and to no other exactly when no other served name is a prefix of it or differs from it in dots and underscores only |
| `Requests.SentAlikeExactly` | ext/lb/haproxy/template.go:36-41 | With disciplined labels, no context roots and distinct backend names: under every order of the hosts requests for a served name reach the servers that nginx has for it, if each served prefix of the name shares a container with it; with pairwise distinct addresses, exactly then |
| `Conservation.ServersConserved` | ext/lb/nginx/generate.go:159-195 | The hosts' servers together are exactly as many as the accepted containers, whatever the number of hosts |
| `Conservation.UpstreamsConserved` | ext/lb/haproxy/generate.go:162-191 | The hosts' upstreams together are one for each accepted container and one for each of its aliases |
| `Conservation.NginxHostsWellFormed` | ext/lb/nginx/generate.go:58-68 | Every emitted host has a context root and a server, and its first server name is its own key |
| `Conservation.ProxyHostsWellFormed` | ext/lb/haproxy/generate.go:162-178 | Every emitted host has a context root and an upstream, so executing the template dereferences no nil |
| `NginxTemplate.LinksResolve` | ext/lb/nginx/template.go:71-154 | For every host list, also one that no generator returns: each host declares one upstream, and every proxy_pass target is declared |
| `NginxTemplate.ContextKey` | ext/lb/nginx/generate.go:50-61 | When no alias is a domain, a host with a context path is keyed by its context name |
| `NginxTemplate.GeneratedFileIsLinked` | ext/lb/nginx/template.go:86-99 | For generated hosts when no alias is a domain: execution succeeds, every target resolves, and upstreams are declared once each exactly when no plain host is named like a context host's upstream |
| `NginxTemplate.DeclaredOnceExactly` | ext/lb/nginx/template.go:86-99 | For all labels: the upstreams are declared once each exactly when no two domains with an accepted container clash: their last context roots have the same name, or a plain domain is "ctx" and the name of the other's root |
| `NginxTemplate.AliasedDomainDuplicates` | ext/lb/nginx/template.go:87-93 | If an accepted container has a context root and another accepted container's domain as alias, and no later container sets the context root of either domain, the file declares an upstream twice |
| `Contents.UpstreamHolds` | ext/lb/nginx/template.go:87-99 | The upstream block of a host lists exactly its servers, in order, after its zone or ip_hash line; no other line of the host is a server line |
| `Contents.PlainServerHolds` | ext/lb/nginx/template.go:100-124 | A plain server has the host's port and names and passes to the host's upstream, over TLS exactly for an SSL backend, unless it redirects because the host is SSL-only; it has no other values |
| `Contents.SslServerHolds` | ext/lb/nginx/template.go:125-151 | Exactly an SSL host has an SSL server, with the SSL port, certificate, key and names of the host, passing to its upstream; it has no other values |
| `Contents.ContextHolds` | ext/lb/nginx/template.go:72-78 | The default server has a location for each context path, passing to the upstream of its name and rewriting exactly when the host asks for it |
| `NginxText.EmittedTextBalances` | ext/lb/nginx/template.go:62-157 | When no substituted value has a brace, no closing brace comes early in the rendering of the host-dependent statements and every block is closed at its end |
| `NginxText.FileDepth` | ext/lb/nginx/template.go:62-157 | For statements with brace-free values, the brace depth of the text is the nesting of the statements |
| `NginxText.LocationsDistinct` | ext/lb/nginx/template.go:104-149 | A host's own server block, plain or SSL, has distinct locations exactly when the host has at most one websocket endpoint, of a path that is not `/` or `/nginx_status`; the plain server of an SSL-only host has no locations |
| `NginxText.DefaultLocationsDistinct` | ext/lb/nginx/template.go:63-84 | For every host list the default server has distinct locations exactly when no context path is `/` or `/nginx_status` and no two hosts have the same one |
| `NginxText.GeneratedLocationsDistinct` | ext/lb/nginx/template.go:63-84 | For generated hosts when no alias is a domain, two hosts never have the same context path, so only a context root `/` or `/nginx_status` repeats a location of the default server |
| `NginxText.DefaultBlockEmitted` | ext/lb/nginx/template.go:63-84 | The rendered file is the fixed blocks, that default server, and the hosts' own blocks |
| `HAProxyTemplate.TargetsMatchSections` | ext/lb/haproxy/template.go:36-47 | For every host list the use_backend targets are the backend sections, in the same order |
| `Contents.FrontendHolds` | ext/lb/haproxy/template.go:36-41 | A host with a context root is picked by a prefix of the path, another one by a prefix of the Host header, each for its own backend |
| `Contents.SectionServers` | ext/lb/haproxy/template.go:57-58 | The server lines of a backend section are the host's upstreams in order, with the TLS mode exactly for an SSL backend |
| `Contents.SectionOptions` | ext/lb/haproxy/template.go:52-54 | The options of a section are the host's, in order, and then its check |
| `Contents.SectionSettings` | ext/lb/haproxy/template.go:51-56 | A section has one balance line, with the host's algorithm, and a redirect exactly for an SSL-only host |
| `Contents.FileServers` | ext/lb/haproxy/template.go:43-59 | The server lines of the whole file are those of the hosts, section by section |
| `HAProxyTemplate.ReplaceConfuses` | ext/lb/haproxy/generate.go:175 | Two names get the same backend name exactly when they differ only in dots against underscores |
| `HAProxyTemplate.BackendsDistinct` | ext/lb/haproxy/generate.go:174-191 | Without context roots, backend sections are distinct exactly when no two names are confused by the replacement, and so whenever no name has an underscore |
| `HAProxyTemplate.BackendsDistinctExactly` | ext/lb/haproxy/template.go:43-47 | For all labels: the backend sections are distinct exactly when no two served names clash: their last context roots have the same name, the replacement confuses two plain names, or it makes a plain name the backend of the other's root |
| `HAProxyTemplate.ContextAliasDuplicates` | ext/lb/haproxy/template.go:43-47 | If an accepted container has a context root and an alias, and no later container sets the context root of the alias or of its domain, two backend sections have one name |
| `Addresses.BackendAddress` | ext/lb/utils/network.go:58-91 | The loops give the first published binding's IP unless it is overridden, and the host port of the first port that the label names; an unpublished one panics |
| `Addresses.AddressByBindings` | ext/lb/utils/network.go:63-89 | The address is the override or the first published binding's IP, a colon, and that binding's host port, or the first host port of the one key whose part before the slash is the label |
| `Addresses.PortPartMeaning` | ext/lb/utils/network.go:80-81 | The port of a key is the part before its slash |
| `Addresses.OrderIndependentExactly` | ext/lb/utils/network.go:63-89 | The outcome is the same under all iteration orders exactly when the labelled ports are all unpublished, or agree on the host port while all published ports agree on the IP or it is overridden, or, with no port of that label, the published ports agree on both |
| `Addresses.PanicExactly` | ext/lb/utils/network.go:77-86 | Some iteration orders panic exactly when a port that the label names has no binding; all of them do exactly when the label names ports and none of those has one |
| `Addresses.BackendOverlayAddress` | ext/lb/utils/network.go:22-56 | The port is the label's, or that of the first named port key; no address when the container is not on the network |
| `Addresses.OverlayByKeys` | ext/lb/utils/network.go:39-53 | The overlay address is the container's IP, a colon, and the label, or without one the part before the slash of the first key |
| `Addresses.OverlayIndependentExactly` | ext/lb/utils/network.go:39-53 | The overlay address is the same under all orders exactly with a port label or when all named keys have one port |
| `Reload.LoadBalancer.HandleEvent` | ext/lb/lb.go:418-475 | Without a network action, start and stop add exactly the exposedness of the container to the cache entry, the three forced statuses set it, any other status leaves it. A network action adds exactly the exposedness of its container, whatever the status; it fails, and leaves the entry, exactly without a container, without a network, or when one of at most five probes fails before the first success |
| `Reload.PollMessageReloads` | server/server.go:287-290 | The poller's message always sets the cache entry and never fails |
| `Reload.CoverKept` | ext/lb/lb.go:191-211 | Only a listing attempt ends the cover of a request: coalescing, expiry, hand-off and skipping all pass it on |
| `Reload.NoRequestLost` | ext/lb/lb.go:106-109 | In every reachable state, a request that no listing attempt has followed has a live entry, a waiting callback, or a woken handler that has not listed |
| `Reload.QuiescentServed` | ext/lb/lb.go:192-211 | In a quiescent state every request of the run is followed by a listing attempt |
| `Reload.NoDeadlock` | ext/lb/lb.go:90-109 | Outside quiescence an internal step is possible |
| `Reload.WorkDecreases` | ext/lb/lb.go:192-319 | Every internal step, failing ones too, decreases a measure |
| `Reload.EveryRequestServed` | ext/lb/lb.go:192-319 | Once requests stop, at most 23 internal steps remain, and a run that cannot go on has a listing attempt after each request |
| `ServerNetwork.NoDeadlock` | server/server.go:85-118 | In polling mode, whenever a goroutine is blocked in a send some internal step is possible |
| `ServerNetwork.WorkDecreases` | server/server.go:159-179 | Every step that is not a new poll message decreases a measure, whatever errors the extensions return |
| `ServerNetwork.RunsEndIdle` | server/server.go:85-179 | Without new poll messages every run is bounded, and it cannot go on exactly when all goroutines are idle |
| `ServerNetwork.PostsAreTaken` | server/server.go:159-178 | In every run the posted messages are those the event loop took and at most one in flight |
| `ServerNetwork.RestartsAnswerSwarmErrors` | server/server.go:86-99 | In every run the Swarm errors of the extensions are the restarts that the error handler has sent and the errors not answered yet, so it sends one restart for each Swarm error, none for another, and all are answered when all is idle |
| `ServerNetwork.ErrorsAreSent` | server/server.go:170-173 | Every error of an extension is sent to the error handler, at most one being in flight |
| `ServerNetwork.RestartsArePrepared` | server/server.go:102-104 | The restart handler prepares once for the first restart and for each later one, at most one being in work |
| `Pipeline.ChangeOnItsWay` | server/server.go:283-291 | A posted change with no later listing attempt is with the poller, the event loop before the load balancer, or covered by the reload protocol |
| `Pipeline.MessageIsRequest` | ext/lb/lb.go:430-472 | When the event loop hands the poller's message to the load balancer, its event handler neither fails nor drops it but sets the cache entry, whatever Docker answers |
| `Pipeline.NoDeadlock` | server/server.go:159-179 | The server joined to a load balancer can always step unless all is idle |
| `Pipeline.RunBounded` | server/server.go:159-179 | Between two changes every run is bounded by the work at its start |
| `Pipeline.EveryChangeIsListed` | server/server.go:283-291 | From poller to proxy: once changes stop, every run is bounded and when it ends each change has been followed by a container listing attempt |
| `Restart.ProxyContainersToRestart` | ext/lb/lb.go:479-514 | The slicing loop gives an instance everything when there is at most one node, its node's share otherwise, and nothing when it is not among the nodes |
| `Restart.SplitWork` | ext/lb/lb.go:494-504 | Every slice is in range, and the loop gives an ID the slice of the last node that has it, cut off the end after the earlier nodes' slices |
| `Restart.ShareSizes` | ext/lb/lb.go:492-502 | Each node but the last gets exactly the quotient, the last the remainder too |
| `Restart.SharesRebuildList` | ext/lb/lb.go:496-502 | The shares from the last node to the first, put together, are the proxy list |
| `Restart.InShares` | ext/lb/lb.go:496-502 | A container is in some share exactly when it is in the list |
| `Restart.SharesDisjoint` | ext/lb/lb.go:496-502 | No container of a list without repetitions is in two shares |
| `Restart.AtMostOnce` | ext/lb/lb.go:479-513 | Two instances with one node list never restart the same container of a list without repetitions exactly when there are at least two nodes, repeated IDs included, or nothing to restart |
| `Restart.AtLeastOnceExactly` | ext/lb/lb.go:479-513 | For any node list: every container is restarted by some instance exactly when each node with a non-empty share is an instance and its ID is that of no later node; with fewer than two nodes, when there is an instance or nothing to restart |
| `Restart.InterlockNodes` | ext/lb/lb.go:276-296 | The node list an instance collects: itself if it runs, and the inspected containers with the app label and an image name with "interlock" after its start |
| `Restart.InterlockImageExactly` | ext/lb/lb.go:291 | An image is Interlock's exactly when "interlock" follows a non-empty part of it and it does not start with "interlock" |
| `Restart.NodesExactly` | ext/lb/lb.go:276-296 | The collected IDs are those of the containers with such an image and the app label, and of the instance's own running container |
| `Restart.NodesInOrder` | ext/lb/lb.go:276-296 | They are collected in list order |
| `Restart.SameViewExactly` | ext/lb/lb.go:278-296 | Two instances collect the same nodes exactly when both, as far as they run, are recognised by everybody |
| `Restart.SameViewsExactly` | ext/lb/lb.go:278-296 | Several instances all collect the same nodes exactly when everybody recognises each of them that runs |
| `Restart.ExactlyOnceExactly` | ext/lb/lb.go:275-298 | When all instances collect the same nodes, each proxy container of a list without repetitions is restarted by exactly one instance exactly when there is none, or at least two nodes are found and every node with a non-empty share is an instance, or at most one node is found and there is one instance |
| `Restart.OnceByPosition` | ext/lb/lb.go:275-298 | Whatever nodes the instances collect: exactly one restarts the proxy container at a position exactly when exactly one either finds at most one node or finds itself, its slice being the interval, computed from list length, number of nodes and its index, that holds the position |
| `Restart.RecognisedInstancesExactly` | ext/lb/lb.go:275-298 | When every recognised container runs an instance, views being free to differ: each proxy container is restarted exactly once exactly when there is none, or when each instance that is not recognised finds several nodes and is either none of them or before the last with more nodes than proxies; if nobody is recognised, when there is one instance |
| `Restart.IdleExactly` | ext/lb/lb.go:492-504 | An instance gets no container of a non-empty list exactly when it finds at least two nodes and is none of them, or one before the last with more nodes than containers |
| `Restart.ExactlyOnce` | ext/lb/lb.go:275-298 | In a healthy cluster all instances collect the same nodes, and each proxy container is restarted by exactly one instance |
| `Restart.StoppedNodeLosesShare` | ext/lb/lb.go:285-295 | If a recognised Interlock container is not running, all instances run and collect the same nodes, two or more, and the stopped one's share is not empty, then no instance restarts any container of that share, each judged by the nodes it collects itself |
| `Sorting.SortCorrect` | server/server.go:263-264 | The sorted list is ordered and has the same elements |
| `Sorting.SortIsDetermined` | server/server.go:263-264 | Any ordered list with the same elements is the sorted list |
| `Sorting.SortsAlike` | server/server.go:263-264 | Two lists sort to the same list exactly when they have the same elements with multiplicity |
| `Sorting.IntsAscend` | server/server.go:264 | The sorted ports ascend |
| `Sorting.StringLeDifference` | server/server.go:263 | IDs are compared at their first difference, and a prefix comes first |
| `Json.ArrayIsJoined` | server/server.go:266-276 | A rendered array is its elements joined by commas in brackets |
| `Text.DecimalValue` | server/server.go:272 | The digits of a rendered number have that value |
| `Json.ArrayPrefix` | server/server.go:266-280 | A rendered array can be read off the front of any text: its elements and what follows are determined |
| `Json.MarshalInjective` | server/server.go:266-280 | The two arrays written one after the other determine both lists |
| `Poller.DigestFaithful` | server/server.go:253-281 | Two listings give the same hashed bytes exactly when each ID and each public port occurs equally often in their container records |
| `Poller.CollectedCounts` | server/server.go:253-261 | Each port is collected as often as the containers publish it, each ID as often as containers have it |
| `Poller.PortsCollected` | server/server.go:256-261 | Every published port of every container is collected |
| `Poller.Collect` | server/server.go:253-261 | The nested loops gather the ID of each container in list order, and each port as often as the containers publish it |
| `Poller.Server.PollOnce` | server/server.go:242-291 | A failed poll changes nothing; a successful one stores the digest and posts exactly when it differs from the stored one |
| `Poller.Server.Run` | server/server.go:239-294 | Over any series of polls the messages are counted by the changes of the digest over the successful ones |
| `Poller.PostsAreChanges` | server/server.go:242-291 | The messages never exceed the first listing plus the changes between adjacent listings, and equal them exactly when no two adjacent inputs collide under the hash |
| `SwarmNodes.ParseSwarmNodes` | server/utils.go:22-88 | The loop with its carried fields runs the row-by-row state machine |
| `SwarmNodes.FiveRows` | server/utils.go:44-74 | A name row and the Containers, Reserved CPUs, Reserved Memory and Labels rows are read as one node with each value in its own field |
| `SwarmNodes.ReservedCPUsRow` | server/utils.go:53-54 | A Reserved CPUs row changes that field alone, in any state |
| `SwarmNodes.ReservedMemoryRow` | server/utils.go:55-56 | A Reserved Memory row changes that field alone, in any state |
| `SwarmNodes.ContainersRow` | server/utils.go:51-52 | A Containers row changes that field alone, in any state |
| `SwarmNodes.LabelsRow` | server/utils.go:57-84 | A Labels row completes the node of the carried fields and blanks them |
| `SwarmNodes.NameRow` | server/utils.go:44-47 | A row without U+0008 and the marker sets name and address |
| `Text.ContainsExactly` | server/utils.go:40 | Containment is having the text between two parts |
| `SwarmNodes.NoiseExactly` | server/utils.go:39-63 | The rows that no state notices are exactly those with U+0008 in the label and the marked rows other than the four known ones |
| `SwarmNodes.NoiseImmunity` | server/utils.go:39-63 | Inserting such rows anywhere in any input leaves the parsed nodes unchanged |
| `SwarmNodes.NodesAreLabelsRows` | server/utils.go:57-84 | The number of nodes is the number of Labels rows |
| `SwarmNodes.RoundTrip` | server/utils.go:32-84 | Parsing the printed form of a node list gives it back exactly when names are free of U+0008 and of the marker, and label lists are non-empty and comma-free |
| `Text.SplitJoin` | server/utils.go:58 | Splitting undoes joining exactly on non-empty lists of separator-free parts |

## Left out

- Docker client calls, TLS set-up, tar copying, the HTTP listener and container signals: their results are inputs that may fail.
- Label lookups: an `Info` holds the looked-up values, in the order that the alias and endpoint lookups return them; the health check interval is None when it is not a number.
- Address resolution inside the generators is a given optional address; `Addresses` models the resolution itself. Both generators are taken with the same override address, and a panic in the resolution or in slicing a short container ID or name stops the process and has no result.
- `Addresses.BackendOverlayAddress`: looking up the network and parsing the CIDR address are an optional IP given to it, because both are library calls.
- `Nginx.GenerateProxyConfig`: the map variables are fields of one record, the loop body is a method, and filepath.Join is a function given with the settings. Pointers to hosts and context roots are values, as nothing is updated through them.
- `NginxText.EmittedTextBalances`: lines that depend on settings alone are not emitted by the model, and white space is simplified; none of those lines holds an unpaired brace.
- `HAProxyTemplate.TargetsMatchSections`: frontend and backend lines that neither define nor use a name (headers, redirects of a missing slash, the path rewrite) are not emitted by the model.
- `Requests.OwnHostExactly`: a name is one word and compared as given: HAProxy's reading of a name with spaces or of an empty one as another number of patterns, ports in the Host header and letter case are not modelled.
- `Restart.ExactlyOnceExactly`: assumes that all instances collect the same nodes; `Restart.SameViewsExactly` says when they do, and `Restart.OnceByPosition` assumes nothing of them.
- `Requests.SentAlikeExactly`: nginx is compared without context roots, with which it serves a path in its default server whatever the host.
- The nginx-plus template, a near copy of the nginx one.
- `Reload.EveryRequestServed`: time is not modelled, so an entry may expire at any step. The cache is modelled by what its vendored source does: one reaper goroutine deletes an expired entry and then runs the callback, and Set takes no lock. Its map is accessed without synchronisation; here each access is one step.
- Liveness after a failed update: the handler drops the attempt without retrying, so only a listing attempt is claimed.
- Two load balancer extensions in one process, which share package-level channels; the clean-up of proxy networks, to which nothing is sent; iptables rules.
- `ServerNetwork.RunsEndIdle`: waiting for Swarm is one step that ends, and the event-stream mode is not covered, where the restart handler also sends on the event channel and waits can form a cycle. Creating the event handler cannot fail in the code and is part of the step of the restart handler.
- `Poller.PostsAreChanges`: SHA-256 is any function with non-empty output, and collisions are stated; container IDs are taken to be hexadecimal, so JSON escaping does not occur.
- `Addresses.OrderIndependentExactly`: host ports are taken to contain no colon, as Docker reports numbers.
- Beacon, metrics, configuration loading and the command line: plumbing without a property that spans operations.
