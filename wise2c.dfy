/**
 Label-driven record placement (`pkg/dns/dns_wise2c.go`).

 A service that carries both the `io.wise2c.stack` and the `io.wise2c.service`
 labels is given a second home in the DNS tree, under
 `<domain path> svc <namespace> <stack> <service>`. Headless services get one A
 record per endpoint address, portal (cluster-IP) services one A record plus an
 SRV record per named port, external-name services one CNAME entry; removal
 deletes a path computed from the same labels.

 Helpers defined elsewhere in the repository are taken as given functions, held
 in `Externals`: the default leaf name `util.GetSkyMsg` derives from a target,
 `getHostname`, and the native naming scheme `kd.fqdn`. The record value
 `util.GetSkyMsg(target, port)` builds is `Sky(target, port)`, and the one
 `generateSRVRecordValue(service, port)` builds is `Srv(service, port)`: two values
 are equal exactly when they were built from equal arguments.
 */
module Wise2c {
  import opened Options
  import opened Strings
  import opened TreeCache
  import opened Kube

  /** The label naming the service inside its stack. */
  const ServiceLabel: string := "io.wise2c.service"

  /** The label naming the stack. */
  const StackLabel: string := "io.wise2c.stack"

  /** `serviceSubdomain`, the segment that follows the domain in every service name. */
  const ServiceSubdomain: string := "svc"

  datatype RecordValue =
    | Sky(host: string, port: int)
    | Srv(service: Service, port: int)

  type Record = Entry<RecordValue>

  datatype Externals = Externals(
    skyName: string -> string,                    // second result of util.GetSkyMsg(target, 0)
    hostname: EndpointAddress -> Option<string>,  // getHostname(address)
    nativeFqdn: (Service, seq<string>) -> string) // kd.fqdn(service, subpaths...)

  // ---------------------------------------------------------------------------
  // Label gate and name composer

  /** `getWise2cLabel`: `[stack, service]` when both labels are present. */
  function GetWise2cLabel(svc: Service): (r: Option<seq<string>>)
    ensures r.Some? <==> ServiceLabel in svc.labels && StackLabel in svc.labels
    ensures r.Some? ==> |r.value| == 2
    ensures r.Some? ==> r.value[0] == svc.labels[StackLabel] && r.value[1] == svc.labels[ServiceLabel]
  {
    if ServiceLabel !in svc.labels then None
    else if StackLabel !in svc.labels then None
    else Some([svc.labels[StackLabel], svc.labels[ServiceLabel]])
  }

  /** The path of a service's namespace: domain path, "svc", namespace. */
  function ServicePath(domainPath: Path, svc: Service): Path
  {
    domainPath + [ServiceSubdomain, svc.namespace]
  }

  /** The labels of a wise2c name, least specific first. */
  function DomainLabels(domainPath: Path, svc: Service, subpaths: seq<string>): seq<string>
  {
    ServicePath(domainPath, svc) + subpaths
  }

  /** `wise2cfqdn`: the labels reversed, joined with dots, fully qualified. */
  function Wise2cFqdn(domainPath: Path, svc: Service, subpaths: seq<string>): (r: string)
    ensures IsFqdn(r)
  {
    Fqdn(Join(Reverse(DomainLabels(domainPath, svc, subpaths)), "."))
  }

  /** Where the headless and portal subtrees are grafted, and where the
      external-name entry is written. */
  function SubCachePath(domainPath: Path, svc: Service, labels: seq<string>): Path
    requires |labels| == 2
  {
    ServicePath(domainPath, svc) + [labels[0]]
  }

  /** The path removal deletes: the service label before the stack label. */
  function RemovalPath(domainPath: Path, svc: Service, labels: seq<string>): Path
    requires |labels| == 2
  {
    ServicePath(domainPath, svc) + [labels[1], labels[0]]
  }

  // ---------------------------------------------------------------------------
  // Headless services

  /** The leaf an endpoint address is filed under: its hostname when it has one,
      otherwise the name derived from its IP. */
  function LeafKey(ext: Externals, a: EndpointAddress): string
  {
    match ext.hostname(a)
    case Some(h) => h
    case None => ext.skyName(a.ip)
  }

  /** The A record of one endpoint address. */
  function HeadlessRecord(domainPath: Path, ext: Externals, svc: Service, labels: seq<string>, a: EndpointAddress): Record
  {
    Entry(Sky(a.ip, 0), Wise2cFqdn(domainPath, svc, labels + [LeafKey(ext, a)]))
  }

  /** The addresses of all subsets, subset by subset. */
  function Addresses(subsets: seq<EndpointSubset>): seq<EndpointAddress>
  {
    if subsets == [] then []
    else Addresses(subsets[..|subsets| - 1]) + subsets[|subsets| - 1].addresses
  }

  /** The subtree built from `addrs`, one `SetEntry` per address, in order. */
  function HeadlessTree(domainPath: Path, ext: Externals, svc: Service, labels: seq<string>,
                        addrs: seq<EndpointAddress>): Tree<RecordValue>
  {
    if addrs == [] then Empty()
    else
      var a := addrs[|addrs| - 1];
      SetEntry(HeadlessTree(domainPath, ext, svc, labels, addrs[..|addrs| - 1]),
               LeafKey(ext, a), HeadlessRecord(domainPath, ext, svc, labels, a), [])
  }

  lemma AddressesNext(subsets: seq<EndpointSubset>, i: nat)
    requires i < |subsets|
    ensures Addresses(subsets[..i + 1]) == Addresses(subsets[..i]) + subsets[i].addresses
  {
    assert subsets[..i + 1][..i] == subsets[..i];
  }

  lemma HeadlessTreeNext(domainPath: Path, ext: Externals, svc: Service, labels: seq<string>,
                         done: seq<EndpointAddress>, addrs: seq<EndpointAddress>, j: nat)
    requires j < |addrs|
    ensures HeadlessTree(domainPath, ext, svc, labels, done + addrs[..j + 1])
         == SetEntry(HeadlessTree(domainPath, ext, svc, labels, done + addrs[..j]),
                     LeafKey(ext, addrs[j]), HeadlessRecord(domainPath, ext, svc, labels, addrs[j]), [])
  {
    assert done + addrs[..j + 1] == (done + addrs[..j]) + [addrs[j]];
  }

  /** The cache after `wise2cRecordsForHeadlessService(e, svc)`. */
  function AddHeadless(t: Tree<RecordValue>, domainPath: Path, ext: Externals, e: Endpoints, svc: Service): Tree<RecordValue>
  {
    match GetWise2cLabel(svc)
    case None => t
    case Some(labels) =>
      SetSubCache(t, labels[1], HeadlessTree(domainPath, ext, svc, labels, Addresses(e.subsets)),
                  SubCachePath(domainPath, svc, labels))
  }

  // ---------------------------------------------------------------------------
  // Portal services

  /** The leaf a portal service's records are filed under, derived from its cluster IP. */
  function PortalLeaf(ext: Externals, svc: Service): string
  {
    ext.skyName(svc.clusterIP)
  }

  /** The A record of a portal service, named by the native scheme. */
  function PortalRecord(ext: Externals, svc: Service): Record
  {
    Entry(Sky(svc.clusterIP, 0), ext.nativeFqdn(svc, [PortalLeaf(ext, svc)]))
  }

  /** A port gets an SRV record only when it has both a name and a protocol. */
  predicate HasSrv(p: ServicePort)
  {
    p.name != "" && p.protocol != ""
  }

  /** The sub-path of a port's SRV record: `_<protocol>`, `_<name>`. */
  function SrvPath(p: ServicePort): Path
  {
    ["_" + ToLower(p.protocol), "_" + p.name]
  }

  /** The SRV record of a port. */
  function SrvRecord(ext: Externals, svc: Service, p: ServicePort): Record
  {
    Entry(Srv(svc, p.port), ext.nativeFqdn(svc, SrvPath(p) + [PortalLeaf(ext, svc)]))
  }

  /** The subtree built from the A record and then `ports`, in order. */
  function PortalTree(ext: Externals, svc: Service, ports: seq<ServicePort>): Tree<RecordValue>
  {
    if ports == [] then SetEntry(Empty(), PortalLeaf(ext, svc), PortalRecord(ext, svc), [])
    else
      var prev := PortalTree(ext, svc, ports[..|ports| - 1]);
      var p := ports[|ports| - 1];
      if HasSrv(p) then SetEntry(prev, PortalLeaf(ext, svc), SrvRecord(ext, svc, p), SrvPath(p))
      else prev
  }

  /** The cache after `newWise2cPortalService(svc)`. */
  function AddPortal(t: Tree<RecordValue>, domainPath: Path, ext: Externals, svc: Service): Tree<RecordValue>
  {
    match GetWise2cLabel(svc)
    case None => t
    case Some(labels) =>
      SetSubCache(t, labels[1], PortalTree(ext, svc, svc.ports), SubCachePath(domainPath, svc, labels))
  }

  // ---------------------------------------------------------------------------
  // External-name services and removal

  /** The CNAME entry of an external-name service. */
  function ExternalNameRecord(domainPath: Path, svc: Service, labels: seq<string>): Record
    requires |labels| == 2
  {
    Entry(Sky(svc.externalName, 0), Wise2cFqdn(domainPath, svc, [labels[0]]))
  }

  /** The cache after `newWise2cExternalNameService(svc)`. */
  function AddExternalName(t: Tree<RecordValue>, domainPath: Path, svc: Service): Tree<RecordValue>
  {
    match GetWise2cLabel(svc)
    case None => t
    case Some(labels) =>
      SetEntry(t, labels[1], ExternalNameRecord(domainPath, svc, labels), SubCachePath(domainPath, svc, labels))
  }

  /** The cache and the result after `removeWise2cService(svc)`. */
  function RemoveService(t: Tree<RecordValue>, domainPath: Path, svc: Service): (Tree<RecordValue>, bool)
  {
    match GetWise2cLabel(svc)
    case None => (t, true)
    case Some(labels) => DeletePath(t, RemovalPath(domainPath, svc, labels))
  }

  // ---------------------------------------------------------------------------
  // The entry points, on the DNS server's shared cache

  class KubeDns {
    /** The cluster domain's labels, most general first ("local", "cluster"). */
    const domainPath: Path
    const ext: Externals
    var cache: Tree<RecordValue>

    constructor (domainPath: Path, ext: Externals, cache: Tree<RecordValue>)
      ensures this.domainPath == domainPath && this.ext == ext && this.cache == cache
    {
      this.domainPath := domainPath;
      this.ext := ext;
      this.cache := cache;
    }

    /** `wise2cRecordsForHeadlessService`: one A record per endpoint address in a
        fresh subtree, grafted under the service label. (The source's error
        result is always nil.) */
    method RecordsForHeadlessService(e: Endpoints, svc: Service)
      modifies this
      ensures GetWise2cLabel(svc).None? ==> cache == old(cache)
      ensures cache == AddHeadless(old(cache), domainPath, ext, e, svc)
    {
      var found := GetWise2cLabel(svc);
      if found.None? {
        return;
      }
      var wise2cLabels := found.value;
      var subCachePath := domainPath + [ServiceSubdomain, svc.namespace, wise2cLabels[0]];
      assert subCachePath == SubCachePath(domainPath, svc, wise2cLabels);

      var subCache: Tree<RecordValue> := Empty();
      for idx := 0 to |e.subsets|
        invariant subCache == HeadlessTree(domainPath, ext, svc, wise2cLabels, Addresses(e.subsets[..idx]))
        invariant cache == old(cache)
      {
        var addresses := e.subsets[idx].addresses;
        ghost var done := Addresses(e.subsets[..idx]);
        assert done + addresses[..0] == done;
        for subIdx := 0 to |addresses|
          invariant subCache == HeadlessTree(domainPath, ext, svc, wise2cLabels, done + addresses[..subIdx])
          invariant cache == old(cache)
        {
          var address := addresses[subIdx];
          var endpointIP := address.ip;
          var recordValue, endpointName := Sky(endpointIP, 0), ext.skyName(endpointIP);
          var hostLabel := ext.hostname(address);
          if hostLabel.Some? {
            endpointName := hostLabel.value;
          }
          HeadlessTreeNext(domainPath, ext, svc, wise2cLabels, done, addresses, subIdx);
          subCache := SetEntry(subCache, endpointName,
                               Entry(recordValue, Wise2cFqdn(domainPath, svc, wise2cLabels + [endpointName])), []);
        }
        AddressesNext(e.subsets, idx);
        assert addresses[..|addresses|] == addresses;
      }
      assert e.subsets[..|e.subsets|] == e.subsets;
      cache := SetSubCache(cache, wise2cLabels[1], subCache, subCachePath);
    }

    /** `newWise2cPortalService`: the A record and one SRV record per named port
        in a fresh subtree, grafted under the service label. */
    method NewPortalService(svc: Service)
      modifies this
      ensures GetWise2cLabel(svc).None? ==> cache == old(cache)
      ensures cache == AddPortal(old(cache), domainPath, ext, svc)
    {
      var found := GetWise2cLabel(svc);
      if found.None? {
        return;
      }
      var wise2cLabels := found.value;

      var subCache: Tree<RecordValue> := Empty();
      var recordValue, recordLabel := Sky(svc.clusterIP, 0), ext.skyName(svc.clusterIP);
      subCache := SetEntry(subCache, recordLabel, Entry(recordValue, ext.nativeFqdn(svc, [recordLabel])), []);

      for i := 0 to |svc.ports|
        invariant subCache == PortalTree(ext, svc, svc.ports[..i])
        invariant cache == old(cache)
      {
        var port := svc.ports[i];
        if port.name != "" && port.protocol != "" {
          var srvValue := Srv(svc, port.port);
          var l := ["_" + ToLower(port.protocol), "_" + port.name];
          subCache := SetEntry(subCache, recordLabel, Entry(srvValue, ext.nativeFqdn(svc, l + [recordLabel])), l);
        }
        assert svc.ports[..i + 1][..i] == svc.ports[..i];
      }
      assert svc.ports[..|svc.ports|] == svc.ports;
      var subCachePath := domainPath + [ServiceSubdomain, svc.namespace, wise2cLabels[0]];
      assert subCachePath == SubCachePath(domainPath, svc, wise2cLabels);
      cache := SetSubCache(cache, wise2cLabels[1], subCache, subCachePath);
    }

    /** `newWise2cExternalNameService`: one entry written straight into the cache,
        keyed by the service label. */
    method NewExternalNameService(svc: Service)
      modifies this
      ensures GetWise2cLabel(svc).None? ==> cache == old(cache)
      ensures cache == AddExternalName(old(cache), domainPath, svc)
    {
      var found := GetWise2cLabel(svc);
      if found.None? {
        return;
      }
      var wise2cLabels := found.value;

      var recordValue := Sky(svc.externalName, 0);
      var cachePath := domainPath + [ServiceSubdomain, svc.namespace, wise2cLabels[0]];
      assert cachePath == SubCachePath(domainPath, svc, wise2cLabels);
      var fqdn := Wise2cFqdn(domainPath, svc, [wise2cLabels[0]]);
      cache := SetEntry(cache, wise2cLabels[1], Entry(recordValue, fqdn), cachePath);
    }

    /** `removeWise2cService`: delete the service's path and report the cache's
        answer; a service without both labels has nothing to remove. */
    method RemoveWise2cService(svc: Service) returns (success: bool)
      modifies this
      ensures GetWise2cLabel(svc).None? ==> cache == old(cache) && success
      ensures (cache, success) == RemoveService(old(cache), domainPath, svc)
    {
      var found := GetWise2cLabel(svc);
      if found.None? {
        return true;
      }
      var wise2cLabels := found.value;
      var subCachePath := domainPath + [ServiceSubdomain, svc.namespace, wise2cLabels[1], wise2cLabels[0]];
      assert subCachePath == RemovalPath(domainPath, svc, wise2cLabels);
      var deleted := DeletePath(cache, subCachePath);
      cache, success := deleted.0, deleted.1;
    }
  }

}
