/**
 What the placement engine guarantees: the shape of composed names, the
 contents of the headless and portal subtrees, the single external-name entry,
 idempotent re-insertion, and where removal does and does not undo insertion.
 */
module Wise2cProperties {
  import opened Options
  import opened Strings
  import opened TreeCache
  import opened Kube
  import opened Wise2c

  // ---------------------------------------------------------------------------
  // Name composition

  /** The last sub-label becomes the leftmost, most specific, DNS label. */
  lemma Wise2cFqdnLeftmost(domainPath: Path, svc: Service, subpaths: seq<string>)
    requires subpaths != []
    ensures subpaths[|subpaths| - 1] + "." <= Wise2cFqdn(domainPath, svc, subpaths)
  {
    var n := |subpaths|;
    var x := subpaths[n - 1];
    var front := DomainLabels(domainPath, svc, subpaths[..n - 1]);
    assert DomainLabels(domainPath, svc, subpaths) == front + [x];
    ReverseAppend(front, x);
    JoinCons(x, Reverse(front), ".");
  }

  /** Reading a composed name back: drop the root dot, split on dots and reverse,
      and the labels come back in their original order. */
  lemma Wise2cFqdnRoundTrip(domainPath: Path, svc: Service, subpaths: seq<string>)
    requires AllLabels(DomainLabels(domainPath, svc, subpaths))
    ensures var r := Wise2cFqdn(domainPath, svc, subpaths);
            Reverse(Split(r[..|r| - 1])) == DomainLabels(domainPath, svc, subpaths)
  {
    var labels := DomainLabels(domainPath, svc, subpaths);
    var parts := Reverse(labels);
    var joined := Join(parts, ".");
    var last := parts[|parts| - 1];
    assert last == labels[0] && IsLabel(last);
    JoinEndsWithLast(parts, ".");
    assert joined[|joined| - 1] == last[|last| - 1];
    assert !IsFqdn(joined);
    assert Wise2cFqdn(domainPath, svc, subpaths)[..|joined|] == joined;
    forall i | 0 <= i < |parts|
      ensures '.' !in parts[i]
    {
      assert IsLabel(labels[|labels| - 1 - i]);
    }
    SplitJoin(parts);
    ReverseTwice(labels);
  }

  // ---------------------------------------------------------------------------
  // Headless subtree

  /** No later address of `addrs` is filed under the same leaf as `addrs[i]`. */
  predicate LastWithKey(ext: Externals, addrs: seq<EndpointAddress>, i: int)
    requires 0 <= i < |addrs|
  {
    forall j :: i < j < |addrs| ==> LeafKey(ext, addrs[j]) != LeafKey(ext, addrs[i])
  }

  /** The headless subtree holds A records only, at its root: no sub-paths, so no
      SRV records whatever ports the endpoints declare. Its leaves are exactly the
      addresses' leaf keys, and each holds the record of the last address filed
      under it. */
  lemma {:induction false} HeadlessTreeShape(domainPath: Path, ext: Externals, svc: Service, labels: seq<string>,
                                             addrs: seq<EndpointAddress>)
    ensures HeadlessTree(domainPath, ext, svc, labels, addrs).children == map[]
    ensures HeadlessTree(domainPath, ext, svc, labels, addrs).entries.Keys == set a | a in addrs :: LeafKey(ext, a)
    ensures forall i :: 0 <= i < |addrs| && LastWithKey(ext, addrs, i) ==>
              HeadlessTree(domainPath, ext, svc, labels, addrs).entries[LeafKey(ext, addrs[i])]
                == HeadlessRecord(domainPath, ext, svc, labels, addrs[i])
  {
    if addrs != [] {
      var n := |addrs|;
      var front := addrs[..n - 1];
      HeadlessTreeShape(domainPath, ext, svc, labels, front);
      assert addrs == front + [addrs[n - 1]];
      forall i | 0 <= i < n && LastWithKey(ext, addrs, i)
        ensures HeadlessTree(domainPath, ext, svc, labels, addrs).entries[LeafKey(ext, addrs[i])]
                == HeadlessRecord(domainPath, ext, svc, labels, addrs[i])
      {
        if i < n - 1 {
          assert LastWithKey(ext, front, i);
        }
      }
    }
  }

  /** N addresses with distinct leaf keys give N leaves, one record each. */
  lemma {:induction false} HeadlessDistinctKeys(domainPath: Path, ext: Externals, svc: Service, labels: seq<string>,
                                                addrs: seq<EndpointAddress>)
    requires forall i, j :: 0 <= i < j < |addrs| ==> LeafKey(ext, addrs[i]) != LeafKey(ext, addrs[j])
    ensures |HeadlessTree(domainPath, ext, svc, labels, addrs).entries| == |addrs|
    ensures forall i :: 0 <= i < |addrs| ==>
              LeafKey(ext, addrs[i]) in HeadlessTree(domainPath, ext, svc, labels, addrs).entries &&
              HeadlessTree(domainPath, ext, svc, labels, addrs).entries[LeafKey(ext, addrs[i])]
                == HeadlessRecord(domainPath, ext, svc, labels, addrs[i])
  {
    HeadlessTreeShape(domainPath, ext, svc, labels, addrs);
    if addrs != [] {
      var n := |addrs|;
      var front := addrs[..n - 1];
      HeadlessDistinctKeys(domainPath, ext, svc, labels, front);
      HeadlessTreeShape(domainPath, ext, svc, labels, front);
      var key := LeafKey(ext, addrs[n - 1]);
      assert key !in HeadlessTree(domainPath, ext, svc, labels, front).entries;
    }
  }

  // ---------------------------------------------------------------------------
  // Portal subtree

  /** The portal subtree's root holds the A record under the cluster-IP leaf, and
      nothing else. */
  lemma {:induction false} PortalRootEntry(ext: Externals, svc: Service, ports: seq<ServicePort>, k: string)
    ensures EntryAt(PortalTree(ext, svc, ports), [], k)
         == if k == PortalLeaf(ext, svc) then Some(PortalRecord(ext, svc)) else None
  {
    if ports == [] {
      EntryAtSetEntry(Empty(), PortalLeaf(ext, svc), PortalRecord(ext, svc), [], [], k);
      EntryAtEmpty<RecordValue>([], k);
    } else {
      var p := ports[|ports| - 1];
      PortalRootEntry(ext, svc, ports[..|ports| - 1], k);
      if HasSrv(p) {
        var prev := PortalTree(ext, svc, ports[..|ports| - 1]);
        EntryAtSetEntry(prev, PortalLeaf(ext, svc), SrvRecord(ext, svc, p), SrvPath(p), [], k);
      }
    }
  }

  /** Below the root there are only SRV records: each is filed under the
      cluster-IP leaf at the sub-path of a port that has both a name and a
      protocol, and is that port's record. Ports lacking either add nothing. */
  lemma {:induction false} PortalSrvOnly(ext: Externals, svc: Service, ports: seq<ServicePort>, q: Path, k: string)
    requires q != []
    ensures EntryAt(PortalTree(ext, svc, ports), q, k).Some? ==>
              k == PortalLeaf(ext, svc) &&
              exists i :: 0 <= i < |ports| && HasSrv(ports[i]) && SrvPath(ports[i]) == q &&
                EntryAt(PortalTree(ext, svc, ports), q, k) == Some(SrvRecord(ext, svc, ports[i]))
  {
    if ports == [] {
      EntryAtSetEntry(Empty(), PortalLeaf(ext, svc), PortalRecord(ext, svc), [], q, k);
      EntryAtEmpty<RecordValue>(q, k);
    } else {
      var n := |ports|;
      var p := ports[n - 1];
      var prev := PortalTree(ext, svc, ports[..n - 1]);
      PortalSrvOnly(ext, svc, ports[..n - 1], q, k);
      if HasSrv(p) {
        EntryAtSetEntry(prev, PortalLeaf(ext, svc), SrvRecord(ext, svc, p), SrvPath(p), q, k);
      }
      if EntryAt(PortalTree(ext, svc, ports), q, k).Some? {
        if HasSrv(p) && q == SrvPath(p) && k == PortalLeaf(ext, svc) {
          assert HasSrv(ports[n - 1]) && SrvPath(ports[n - 1]) == q;
        } else {
          var i :| 0 <= i < n - 1 && HasSrv(ports[..n - 1][i]) && SrvPath(ports[..n - 1][i]) == q &&
                   EntryAt(prev, q, k) == Some(SrvRecord(ext, svc, ports[..n - 1][i]));
          assert ports[..n - 1][i] == ports[i];
        }
      }
    }
  }

  /** A port with a name and a protocol, not overridden by a later port with the
      same SRV sub-path, has its SRV record under the cluster-IP leaf. */
  lemma {:induction false} PortalSrvPresent(ext: Externals, svc: Service, ports: seq<ServicePort>, i: int)
    requires 0 <= i < |ports| && HasSrv(ports[i])
    requires forall j :: i < j < |ports| && HasSrv(ports[j]) ==> SrvPath(ports[j]) != SrvPath(ports[i])
    ensures EntryAt(PortalTree(ext, svc, ports), SrvPath(ports[i]), PortalLeaf(ext, svc))
         == Some(SrvRecord(ext, svc, ports[i]))
  {
    var n := |ports|;
    var p := ports[n - 1];
    var prev := PortalTree(ext, svc, ports[..n - 1]);
    if HasSrv(p) {
      EntryAtSetEntry(prev, PortalLeaf(ext, svc), SrvRecord(ext, svc, p), SrvPath(p),
                      SrvPath(ports[i]), PortalLeaf(ext, svc));
    }
    if i < n - 1 {
      assert ports[..n - 1][i] == ports[i];
      PortalSrvPresent(ext, svc, ports[..n - 1], i);
    }
  }

  /** One port `https`/`TCP`: one leaf, holding the A record at the root and the
      SRV record under `_tcp`, `_https`. */
  lemma PortalHttpsExample(ext: Externals, svc: Service)
    requires svc.ports == [ServicePort("https", "TCP", 443)]
    ensures var leaf := PortalLeaf(ext, svc);
            PortalTree(ext, svc, svc.ports)
              == Tree(map["_tcp" := Tree(map["_https" := Tree(map[], map[leaf := SrvRecord(ext, svc, svc.ports[0])])], map[])],
                      map[leaf := PortalRecord(ext, svc)])
  {
    var p := svc.ports[0];
    assert ToLower("TCP") == "tcp";
    assert p.protocol == "TCP" && p.name == "https";
    assert "_" + ToLower(p.protocol) == "_tcp";
    assert "_" + p.name == "_https";
    var path := SrvPath(p);
    assert path == ["_tcp", "_https"];
    assert svc.ports[..0] == [];
    var leaf, srv := PortalLeaf(ext, svc), SrvRecord(ext, svc, p);
    var root := Tree(map[], map[leaf := PortalRecord(ext, svc)]);
    assert PortalTree(ext, svc, []) == root;
    assert path[1..] == ["_https"] && path[1..][1..] == [];
    assert SetEntry(Empty(), leaf, srv, path[1..]) == Tree(map["_https" := Tree(map[], map[leaf := srv])], map[]);
    assert PortalTree(ext, svc, svc.ports) == SetEntry(root, leaf, srv, path);
  }

  // ---------------------------------------------------------------------------
  // Re-insertion and the external-name entry

  /** Handling the same headless service twice leaves the cache as handling it once. */
  lemma AddHeadlessIdempotent(t: Tree<RecordValue>, domainPath: Path, ext: Externals, e: Endpoints, svc: Service)
    ensures AddHeadless(AddHeadless(t, domainPath, ext, e, svc), domainPath, ext, e, svc)
         == AddHeadless(t, domainPath, ext, e, svc)
  {
    if GetWise2cLabel(svc).Some? {
      var labels := GetWise2cLabel(svc).value;
      SetSubCacheIdempotent(t, labels[1], HeadlessTree(domainPath, ext, svc, labels, Addresses(e.subsets)),
                            SubCachePath(domainPath, svc, labels));
    }
  }

  /** Handling the same portal service twice leaves the cache as handling it once. */
  lemma AddPortalIdempotent(t: Tree<RecordValue>, domainPath: Path, ext: Externals, svc: Service)
    ensures AddPortal(AddPortal(t, domainPath, ext, svc), domainPath, ext, svc) == AddPortal(t, domainPath, ext, svc)
  {
    if GetWise2cLabel(svc).Some? {
      var labels := GetWise2cLabel(svc).value;
      SetSubCacheIdempotent(t, labels[1], PortalTree(ext, svc, svc.ports), SubCachePath(domainPath, svc, labels));
    }
  }

  /** Handling the same external-name service twice leaves the cache as handling it once. */
  lemma AddExternalNameIdempotent(t: Tree<RecordValue>, domainPath: Path, svc: Service)
    ensures AddExternalName(AddExternalName(t, domainPath, svc), domainPath, svc) == AddExternalName(t, domainPath, svc)
  {
    if GetWise2cLabel(svc).Some? {
      var labels := GetWise2cLabel(svc).value;
      SetEntryIdempotent(t, labels[1], ExternalNameRecord(domainPath, svc, labels), SubCachePath(domainPath, svc, labels));
    }
  }

  /** An external-name service changes exactly one entry: the one keyed by the
      service label in the stack's node. */
  lemma ExternalNameSingleEntry(t: Tree<RecordValue>, domainPath: Path, svc: Service, q: Path, k: string)
    requires GetWise2cLabel(svc).Some?
    ensures var labels := GetWise2cLabel(svc).value;
            EntryAt(AddExternalName(t, domainPath, svc), q, k)
              == if q == SubCachePath(domainPath, svc, labels) && k == labels[1]
                 then Some(ExternalNameRecord(domainPath, svc, labels))
                 else EntryAt(t, q, k)
  {
    var labels := GetWise2cLabel(svc).value;
    EntryAtSetEntry(t, labels[1], ExternalNameRecord(domainPath, svc, labels), SubCachePath(domainPath, svc, labels), q, k);
  }

  // ---------------------------------------------------------------------------
  // Removal against insertion

  /** The removal path names the grafted subtree only when the stack and service
      labels are equal. */
  lemma RemovalPathMatchesGraft(domainPath: Path, svc: Service, labels: seq<string>)
    requires |labels| == 2
    ensures RemovalPath(domainPath, svc, labels) == SubCachePath(domainPath, svc, labels) + [labels[1]]
            <==> labels[0] == labels[1]
  {
    var n := |ServicePath(domainPath, svc)|;
    if RemovalPath(domainPath, svc, labels) == SubCachePath(domainPath, svc, labels) + [labels[1]] {
      assert RemovalPath(domainPath, svc, labels)[n] == labels[1];
      assert (SubCachePath(domainPath, svc, labels) + [labels[1]])[n] == labels[0];
    }
  }

  /** Removing a service right after its subtree was grafted: when the stack and
      service labels are equal the subtree is gone and removal reports success;
      otherwise the subtree survives, and the result only says whether the cache
      already held something at the removal path. */
  lemma {:induction false} RemoveAfterGraft(t: Tree<RecordValue>, domainPath: Path, svc: Service, sub: Tree<RecordValue>)
    requires GetWise2cLabel(svc).Some?
    ensures var labels := GetWise2cLabel(svc).value;
            var grafted := SetSubCache(t, labels[1], sub, SubCachePath(domainPath, svc, labels));
            var removal := RemovalPath(domainPath, svc, labels);
            var after := RemoveService(grafted, domainPath, svc);
            && (labels[0] == labels[1] ==>
                  after.1 && NodeAt(after.0, SubCachePath(domainPath, svc, labels) + [labels[1]]) == None)
            && (labels[0] != labels[1] ==>
                  NodeAt(after.0, SubCachePath(domainPath, svc, labels) + [labels[1]]) == Some(sub) &&
                  after.1 == (NodeAt(t, removal).Some? ||
                              EntryAt(t, removal[..|removal| - 1], removal[|removal| - 1]).Some?))
  {
    var labels := GetWise2cLabel(svc).value;
    var path := SubCachePath(domainPath, svc, labels);
    var at := path + [labels[1]];
    var grafted := SetSubCache(t, labels[1], sub, path);
    var removal := RemovalPath(domainPath, svc, labels);
    var n := |ServicePath(domainPath, svc)|;
    NodeAtSetSubCache(t, labels[1], sub, path);
    DeletePathResult(grafted, removal);
    if labels[0] == labels[1] {
      assert removal == at;
      NodeAtDeletePath(grafted, removal);
    } else {
      assert removal[n] != at[n];
      NodeAtDeletePathFrame(grafted, removal, at);
      NodeAtSetSubCacheFrame(t, labels[1], sub, path, removal);
      assert removal[..|removal| - 1] == ServicePath(domainPath, svc) + [labels[1]];
      EntryAtSetSubCache(t, labels[1], sub, path, removal[..|removal| - 1], removal[|removal| - 1]);
    }
  }

  /** Removing a headless service undoes its insertion exactly when its stack and
      service labels are equal. */
  lemma RemoveAfterHeadless(t: Tree<RecordValue>, domainPath: Path, ext: Externals, e: Endpoints, svc: Service)
    requires GetWise2cLabel(svc).Some?
    ensures var labels := GetWise2cLabel(svc).value;
            var after := RemoveService(AddHeadless(t, domainPath, ext, e, svc), domainPath, svc);
            NodeAt(after.0, SubCachePath(domainPath, svc, labels) + [labels[1]]).None? <==> labels[0] == labels[1]
  {
    var labels := GetWise2cLabel(svc).value;
    RemoveAfterGraft(t, domainPath, svc, HeadlessTree(domainPath, ext, svc, labels, Addresses(e.subsets)));
  }

  /** Removing a portal service undoes its insertion exactly when its stack and
      service labels are equal. */
  lemma RemoveAfterPortal(t: Tree<RecordValue>, domainPath: Path, ext: Externals, svc: Service)
    requires GetWise2cLabel(svc).Some?
    ensures var labels := GetWise2cLabel(svc).value;
            var after := RemoveService(AddPortal(t, domainPath, ext, svc), domainPath, svc);
            NodeAt(after.0, SubCachePath(domainPath, svc, labels) + [labels[1]]).None? <==> labels[0] == labels[1]
  {
    var labels := GetWise2cLabel(svc).value;
    RemoveAfterGraft(t, domainPath, svc, PortalTree(ext, svc, svc.ports));
  }

  /** Removing an external-name service deletes its entry exactly when its stack
      and service labels are equal and no subtree is grafted under the same
      name, which removal would take instead. */
  lemma RemoveAfterExternalName(t: Tree<RecordValue>, domainPath: Path, svc: Service)
    requires GetWise2cLabel(svc).Some?
    ensures var labels := GetWise2cLabel(svc).value;
            var after := RemoveService(AddExternalName(t, domainPath, svc), domainPath, svc);
            (EntryAt(after.0, SubCachePath(domainPath, svc, labels), labels[1]).None?
             <==> labels[0] == labels[1] && NodeAt(t, SubCachePath(domainPath, svc, labels) + [labels[1]]).None?)
  {
    var labels := GetWise2cLabel(svc).value;
    var path := SubCachePath(domainPath, svc, labels);
    var removal := RemovalPath(domainPath, svc, labels);
    var written := AddExternalName(t, domainPath, svc);
    var n := |ServicePath(domainPath, svc)|;
    ExternalNameSingleEntry(t, domainPath, svc, path, labels[1]);
    EntryAtDeletePath(written, removal, path, labels[1]);
    assert !(removal <= path);
    if labels[0] == labels[1] {
      assert removal == path + [labels[1]];
      NodeAtSetEntryFrame(t, labels[1], ExternalNameRecord(domainPath, svc, labels), path, removal);
    } else {
      assert removal[n] != (path + [labels[1]])[n];
    }
  }

}
