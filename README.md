# Label-driven DNS placement for wise2c stacks

This project models the core of `pkg/dns/dns_wise2c.go` in the wise2c fork of
kube-dns and proves properties of it in Dafny.

A Kubernetes service can carry both the `io.wise2c.stack` and the
`io.wise2c.service` labels. Such a service gets a second home in kube-dns's
tree cache, placed by those two labels rather than by the service's own name:

- **Label gate** (`Wise2c.GetWise2cLabel`). It returns `[stack, service]` when
  both label keys are present. An empty value still counts as present.
- **Name composer** (`Wise2c.Wise2cFqdn`). It builds the label list: domain
  path, `svc`, namespace, then the given sub-labels. It reverses that list,
  joins it with dots and makes the result fully qualified with a trailing dot.
- **Record synthesis**, one entry point per kind of service. Each is a method
  of the class `Wise2c.KubeDns`, which owns the shared `cache`:
  - headless: one A record per endpoint address, in a fresh subtree;
  - portal (cluster IP): one A record, plus one SRV record for each port that
    has both a name and a protocol, in a fresh subtree;
  - external name: one entry written straight into the cache.

  The two subtrees are grafted at `<domain> svc <ns> <stack>` under the
  service label. This replaces whatever was grafted there before.
- **Removal**. It deletes `<domain> svc <ns> <service> <stack>` and returns
  what the cache reports.

The headless and portal methods build their subtree in a loop, as the source
does. Each method is proved against a specification function of the old cache
(`AddHeadless`, `AddPortal`, `AddExternalName`, `RemoveService`). The lemmas in
`Wise2cProperties` state what those functions guarantee.

The tree cache (`TreeCache`) is a value: a node has a map of child nodes and a
separate map of leaf entries. Its three operations are stated as the engine
needs them. `SetEntry` creates the nodes along its path and stores one entry.
`SetSubCache` grafts a subtree under a key. `DeletePath` removes the child node
that the path's last label names, with everything below it. Only when there is
no such child does it remove the entry of that name instead. It reports whether
either one existed.

Some helpers are defined in other files of the repository. They are not part
of this model, so the class takes them as given functions in `Externals`:

- the default leaf name that `util.GetSkyMsg(target, 0)` derives;
- `getHostname`;
- the native naming scheme `kd.fqdn`.

Record values are the free constructors `Sky(target, port)` (built by
`util.GetSkyMsg`) and `Srv(service, port)` (built by `generateSRVRecordValue`).

Two behaviours of the code are easy to miss:

- Removal deletes `<ns> <service> <stack>` (line 156), while the graft lands at
  `<ns> <stack> <service>` (lines 67, 98, 125, 128). `RemoveAfterGraft` proves
  that removal undoes insertion only when the stack and service labels are
  equal. Otherwise the subtree survives removal.
- The label gate checks only that the two label keys are present (lines 42-51).
  An empty label value passes it.

## Model

| member | source | states |
|---|---|---|
| Wise2c.GetWise2cLabel | pkg/dns/dns_wise2c.go:41-53 | a pair is returned iff both `io.wise2c.service` and `io.wise2c.stack` are label keys; it is `[stack, service]`, values verbatim (empty values included) |
| Wise2c.Wise2cFqdn | pkg/dns/dns_wise2c.go:56-59 | the composed name is always fully qualified (ends in `.`) |
| Wise2cProperties.Wise2cFqdnLeftmost | pkg/dns/dns_wise2c.go:56-59 | the last sub-label followed by `.` is a prefix of the name: it becomes the leftmost DNS label |
| Wise2cProperties.Wise2cFqdnRoundTrip | pkg/dns/dns_wise2c.go:55-59 | for non-empty dot-free labels, dropping the root dot, splitting on `.` and reversing gives back exactly domain path ++ [`svc`, namespace] ++ sub-labels |
| Strings.Reverse | pkg/dns/dns_wise2c.go:58 | the reversal keeps the length and puts element `i` at position `n-1-i` |
| Strings.SplitJoin | pkg/dns/dns_wise2c.go:58 | joining dot-free labels with `.` can be undone by splitting on `.` |
| Strings.Fqdn | pkg/dns/dns_wise2c.go:58 | the result ends in `.`; a name already ending in `.` is returned unchanged, any other name gets one `.` appended |
| Strings.ToLower | pkg/dns/dns_wise2c.go:119 | the protocol keeps its length; each ASCII capital becomes the matching lower-case letter and every other character is kept |
| Wise2c.KubeDns.RecordsForHeadlessService | pkg/dns/dns_wise2c.go:61-100 | without both labels the cache is unchanged; otherwise the new cache is the old one with the headless subtree (one `SetEntry` per address, subsets then addresses in order) grafted under the service label at domain ++ [`svc`, ns, stack] |
| Wise2cProperties.HeadlessTreeShape | pkg/dns/dns_wise2c.go:72-95 | the headless subtree has no child nodes (no SRV sub-paths, whatever the ports); its leaf keys are exactly the addresses' keys (hostname if present, else the IP-derived name); each leaf holds the record (IP, fqdn of stack, service, key) of the last address with that key |
| Wise2cProperties.HeadlessDistinctKeys | pkg/dns/dns_wise2c.go:72-95 | N addresses with distinct keys give exactly N leaves, each holding its own address's record |
| Wise2c.KubeDns.NewPortalService | pkg/dns/dns_wise2c.go:102-129 | without both labels the cache is unchanged; otherwise the portal subtree (A record, then SRV per port in order) is grafted under the service label at domain ++ [`svc`, ns, stack] |
| Wise2cProperties.PortalRootEntry | pkg/dns/dns_wise2c.go:109-111 | at the subtree's root there is exactly one entry: the A record of the cluster IP under its derived leaf, named by the native scheme |
| Wise2cProperties.PortalSrvOnly | pkg/dns/dns_wise2c.go:113-124 | every entry below the root sits under the cluster-IP leaf at the sub-path `["_" + lower(protocol), "_" + name]` of a port with both fields non-empty, and is that port's SRV record; ports lacking either field add nothing |
| Wise2cProperties.PortalSrvPresent | pkg/dns/dns_wise2c.go:113-124 | each port with name and protocol, not overridden by a later port with the same sub-path, has its SRV record under the cluster-IP leaf |
| Wise2cProperties.PortalHttpsExample | pkg/dns/dns_wise2c.go:110-124 | a single port `https`/`TCP` yields one leaf: the A record at the root and the SRV record under `_tcp`, `_https` |
| Wise2c.KubeDns.NewExternalNameService | pkg/dns/dns_wise2c.go:131-148 | without both labels the cache is unchanged; otherwise exactly one direct `SetEntry` of the external name's record, keyed by the service label at domain ++ [`svc`, ns, stack], named `wise2cfqdn(svc, stack)` |
| Wise2cProperties.ExternalNameSingleEntry | pkg/dns/dns_wise2c.go:139-147 | the external-name variant changes exactly one entry, the one keyed by the service label in the stack's node; every other entry is unchanged |
| Wise2c.KubeDns.RemoveWise2cService | pkg/dns/dns_wise2c.go:150-161 | without both labels the cache is unchanged and the result is true; otherwise the cache and result are those of `DeletePath(domain ++ [svc, ns, service, stack])`, passed on unchanged |
| Wise2cProperties.AddHeadlessIdempotent | pkg/dns/dns_wise2c.go:67-98 | handling the same headless service twice leaves the cache as handling it once |
| Wise2cProperties.AddPortalIdempotent | pkg/dns/dns_wise2c.go:109-128 | handling the same portal service twice leaves the cache as handling it once |
| Wise2cProperties.AddExternalNameIdempotent | pkg/dns/dns_wise2c.go:139-147 | handling the same external-name service twice leaves the cache as handling it once |
| Wise2cProperties.RemovalPathMatchesGraft | pkg/dns/dns_wise2c.go:156 | the removal path equals the graft location (insertion path ++ [service]) iff stack == service |
| Wise2cProperties.RemoveAfterGraft | pkg/dns/dns_wise2c.go:156-160 | removing right after a graft: if stack == service the subtree is gone and the result is true; otherwise the subtree survives intact and the result only reflects what the cache already held at the removal path |
| Wise2cProperties.RemoveAfterHeadless | pkg/dns/dns_wise2c.go:150-160 | removal undoes a headless insertion iff stack == service |
| Wise2cProperties.RemoveAfterPortal | pkg/dns/dns_wise2c.go:150-160 | removal undoes a portal insertion iff stack == service |
| Wise2cProperties.RemoveAfterExternalName | pkg/dns/dns_wise2c.go:147-157 | removal deletes an external-name entry iff stack == service and no subtree is grafted under the same name (removal takes the subtree instead) |
| TreeCache.EntryAtSetEntry | pkg/dns/dns_wise2c.go:147 | after `SetEntry` the entry at (path, key) is the new one and every other entry is unchanged |
| TreeCache.NodeAtSetEntry | pkg/dns/dns_wise2c.go:147 | `SetEntry` creates every node along its path |
| TreeCache.NodeAtSetEntryFrame | pkg/dns/dns_wise2c.go:147 | `SetEntry` leaves every node off its path as it was |
| TreeCache.EntryAtSetSubCache | pkg/dns/dns_wise2c.go:98 | after `SetSubCache` every entry at or below path ++ [key] is the subtree's, every other entry is unchanged |
| TreeCache.NodeAtSetSubCache | pkg/dns/dns_wise2c.go:128 | the grafted subtree is found whole at path ++ [key] |
| TreeCache.NodeAtSetSubCacheFrame | pkg/dns/dns_wise2c.go:128 | nodes neither above nor below the graft location are unchanged |
| TreeCache.SetEntryIdempotent | pkg/dns/dns_wise2c.go:147 | writing the same entry twice equals writing it once |
| TreeCache.SetSubCacheIdempotent | pkg/dns/dns_wise2c.go:98 | grafting the same subtree twice equals grafting it once |
| TreeCache.DeletePathResult | pkg/dns/dns_wise2c.go:157 | `DeletePath` returns true iff a node or an entry was named by the path |
| TreeCache.EntryAtDeletePath | pkg/dns/dns_wise2c.go:157 | after `DeletePath` every entry below the path is gone; the entry the path names is gone unless a child node of that name was removed instead; every other entry is unchanged |
| TreeCache.NodeAtDeletePath | pkg/dns/dns_wise2c.go:157 | after `DeletePath` no node is left at the path |
| TreeCache.NodeAtDeletePathFrame | pkg/dns/dns_wise2c.go:157 | nodes neither above nor below the deleted path are unchanged |

## Left out

- `glog` logging (lines 120, 142-143, 158-159): it has no effect on the cache or the results.
- The treecache implementation is not part of this model. Its operations are modelled by the contract stated above. That includes creating nodes along a path and reporting whether the deleted node or entry existed.
- `util.GetSkyMsg`, `generateSRVRecordValue`, `kd.fqdn` and `getHostname` are not part of this model. They are given functions (`Externals`) or free record constructors, so no property depends on how they compute.
- `serviceSubdomain` is declared with the native naming scheme, which is not part of this model. It is the constant `"svc"` here.
- Strings.Fqdn: models `dns.Fqdn` only as "append `.` unless the name already ends in one". It does not treat an escaped final dot (`\.`) specially.
- Strings.ToLower: lower-cases ASCII letters only. Protocol names are ASCII (`TCP`, `UDP`, `SCTP`).
- Wise2cProperties.Wise2cFqdnRoundTrip: holds only for non-empty, dot-free labels. The source does not validate label values, and an empty label or one holding a dot does not read back as one label.
- The commented-out SRV block for headless endpoints and the commented-out cache lock (lines 82-92, 96-97, 126-127, 144-145) are dead code. Locking is a concurrency concern, and the model assumes a single writer.
- Go slice aliasing from `append(kd.domainPath, ...)` is not modelled. Every path is a fresh sequence.
- The error result of `wise2cRecordsForHeadlessService` is always nil, so the model's method has no result.
- Kubernetes object fields that the code never reads, and the watch layer that calls these entry points, are not modelled.
