/**
 The hierarchical cache the placement engine writes into (`treecache.TreeCache`).
 A node holds child nodes and leaf entries in two separate maps, each keyed by
 one label; a path is the sequence of child labels from the root. Its
 implementation is not part of this model: what is stated here is the contract
 the engine relies on — `SetEntry` creates the nodes along its path and stores one
 entry, `SetSubCache` grafts a whole subtree under a key, replacing what was
 there, and `DeletePath` removes what the last label names and everything below.
 */
module TreeCache {
  import opened Options

  type Path = seq<string>

  /** A stored record and the name it answers for. */
  datatype Entry<V> = Entry(value: V, fqdn: string)

  datatype Tree<V> = Tree(children: map<string, Tree<V>>, entries: map<string, Entry<V>>)

  /** `treecache.NewTreeCache()`. */
  function Empty<V>(): Tree<V>
  {
    Tree(map[], map[])
  }

  /** The child under `k`, or a fresh empty node when there is none. */
  function Child<V>(t: Tree<V>, k: string): Tree<V>
  {
    if k in t.children then t.children[k] else Empty()
  }

  /** The node at `path`, if every node along it exists. */
  function NodeAt<V>(t: Tree<V>, path: Path): Option<Tree<V>>
    decreases |path|
  {
    if path == [] then Some(t)
    else if path[0] in t.children then NodeAt(t.children[path[0]], path[1..])
    else None
  }

  /** The entry stored under `key` in the node at `path`. */
  function EntryAt<V>(t: Tree<V>, path: Path, key: string): Option<Entry<V>>
  {
    match NodeAt(t, path)
    case None => None
    case Some(n) => if key in n.entries then Some(n.entries[key]) else None
  }

  /** `SetEntry(key, value, fqdn, path...)`. */
  function SetEntry<V>(t: Tree<V>, key: string, e: Entry<V>, path: Path): Tree<V>
    decreases |path|
  {
    if path == [] then t.(entries := t.entries[key := e])
    else t.(children := t.children[path[0] := SetEntry(Child(t, path[0]), key, e, path[1..])])
  }

  /** `SetSubCache(key, subCache, path...)`. */
  function SetSubCache<V>(t: Tree<V>, key: string, sub: Tree<V>, path: Path): Tree<V>
    decreases |path|
  {
    if path == [] then t.(children := t.children[key := sub])
    else t.(children := t.children[path[0] := SetSubCache(Child(t, path[0]), key, sub, path[1..])])
  }

  /** `DeletePath(path...)`: the new tree, and whether a node or an entry was
      named by the path. The child node the last label names is removed with
      everything below it; only when there is no such child is the entry of that
      name removed instead. The empty path names nothing. */
  function DeletePath<V>(t: Tree<V>, path: Path): (Tree<V>, bool)
    decreases |path|
  {
    if path == [] then (t, false)
    else if |path| == 1 then
      if path[0] in t.children then (t.(children := t.children - {path[0]}), true)
      else (t.(entries := t.entries - {path[0]}), path[0] in t.entries)
    else if path[0] in t.children then
      var (c, removed) := DeletePath(t.children[path[0]], path[1..]);
      (t.(children := t.children[path[0] := c]), removed)
    else (t, false)
  }

  lemma EntryAtEmpty<V>(path: Path, key: string)
    ensures EntryAt(Empty<V>(), path, key) == None
  {
  }

  /** Reading one level down. */
  lemma EntryAtStep<V>(t: Tree<V>, path: Path, key: string)
    requires path != []
    ensures EntryAt(t, path, key) == EntryAt(Child(t, path[0]), path[1..], key)
  {
    if path[0] !in t.children {
      EntryAtEmpty<V>(path[1..], key);
    }
  }

  /** After `SetEntry` exactly one entry differs: the one it wrote. */
  lemma {:induction false} EntryAtSetEntry<V>(t: Tree<V>, key: string, e: Entry<V>, path: Path, q: Path, k: string)
    ensures EntryAt(SetEntry(t, key, e, path), q, k)
         == if q == path && k == key then Some(e) else EntryAt(t, q, k)
    decreases |path|
  {
    var r := SetEntry(t, key, e, path);
    if path != [] && q != [] {
      EntryAtStep(r, q, k);
      EntryAtStep(t, q, k);
      if q[0] == path[0] {
        EntryAtSetEntry(Child(t, path[0]), key, e, path[1..], q[1..], k);
        assert q == path <==> q[1..] == path[1..];
      }
    }
  }

  /** `SetEntry` leaves every node that is not on its path as it was. */
  lemma {:induction false} NodeAtSetEntryFrame<V>(t: Tree<V>, key: string, e: Entry<V>, path: Path, q: Path)
    requires !(q <= path)
    ensures NodeAt(SetEntry(t, key, e, path), q) == NodeAt(t, q)
    decreases |path|
  {
    if path != [] && q[0] == path[0] {
      NodeAtSetEntryFrame(Child(t, path[0]), key, e, path[1..], q[1..]);
      if path[0] !in t.children {
        NodeAtEmpty<V>(q[1..]);
      }
    }
  }

  /** `SetEntry` leaves a node at every prefix of its path. */
  lemma {:induction false} NodeAtSetEntry<V>(t: Tree<V>, key: string, e: Entry<V>, path: Path, q: Path)
    requires q <= path
    ensures NodeAt(SetEntry(t, key, e, path), q).Some?
    decreases |path|
  {
    if q != [] {
      NodeAtSetEntry(Child(t, path[0]), key, e, path[1..], q[1..]);
    }
  }

  /** After `SetSubCache` every entry at or below `path + [key]` is the grafted
      subtree's, and every other entry is unchanged. */
  lemma {:induction false} EntryAtSetSubCache<V>(t: Tree<V>, key: string, sub: Tree<V>, path: Path, q: Path, k: string)
    ensures EntryAt(SetSubCache(t, key, sub, path), q, k)
         == if path + [key] <= q then EntryAt(sub, q[|path| + 1..], k) else EntryAt(t, q, k)
    decreases |path|
  {
    var r := SetSubCache(t, key, sub, path);
    if q != [] {
      EntryAtStep(r, q, k);
      EntryAtStep(t, q, k);
      if path == [] {
        assert [key] <= q <==> q[0] == key;
      } else if q[0] == path[0] {
        EntryAtSetSubCache(Child(t, path[0]), key, sub, path[1..], q[1..], k);
        assert path + [key] <= q <==> path[1..] + [key] <= q[1..];
      }
    }
  }

  /** The grafted subtree is found, whole, at `path + [key]`. */
  lemma {:induction false} NodeAtSetSubCache<V>(t: Tree<V>, key: string, sub: Tree<V>, path: Path)
    ensures NodeAt(SetSubCache(t, key, sub, path), path + [key]) == Some(sub)
    decreases |path|
  {
    if path != [] {
      NodeAtSetSubCache(Child(t, path[0]), key, sub, path[1..]);
      assert (path + [key])[1..] == path[1..] + [key];
    }
  }

  /** A node on neither side of the graft location keeps its place and contents. */
  lemma {:induction false} NodeAtSetSubCacheFrame<V>(t: Tree<V>, key: string, sub: Tree<V>, path: Path, q: Path)
    requires !(q <= path + [key]) && !(path + [key] <= q)
    ensures NodeAt(SetSubCache(t, key, sub, path), q) == NodeAt(t, q)
    decreases |path|
  {
    if path != [] && q[0] == path[0] {
      assert (path + [key])[1..] == path[1..] + [key];
      NodeAtSetSubCacheFrame(Child(t, path[0]), key, sub, path[1..], q[1..]);
      if path[0] !in t.children {
        NodeAtEmpty<V>(q[1..]);
      }
    }
  }

  lemma NodeAtEmpty<V>(q: Path)
    requires q != []
    ensures NodeAt(Empty<V>(), q) == None
  {
  }

  /** `DeletePath` reports whether the node or the entry its path names existed. */
  lemma {:induction false} DeletePathResult<V>(t: Tree<V>, path: Path)
    requires path != []
    ensures DeletePath(t, path).1
        == (NodeAt(t, path).Some? || EntryAt(t, path[..|path| - 1], path[|path| - 1]).Some?)
    decreases |path|
  {
    var n := |path|;
    if n > 1 {
      EntryAtStep(t, path[..n - 1], path[n - 1]);
      assert path[..n - 1][1..] == path[1..][..n - 2];
      if path[0] in t.children {
        DeletePathResult(t.children[path[0]], path[1..]);
      } else {
        EntryAtEmpty<V>(path[1..][..n - 2], path[n - 1]);
      }
    }
  }

  /** After `DeletePath` every entry below the path is gone; the entry the path
      names is gone unless a child node of that name was removed instead; every
      other entry is unchanged. */
  lemma {:induction false} EntryAtDeletePath<V>(t: Tree<V>, path: Path, q: Path, k: string)
    requires path != []
    ensures EntryAt(DeletePath(t, path).0, q, k)
         == if path <= q then None
            else if q + [k] == path && NodeAt(t, path).None? then None
            else EntryAt(t, q, k)
    decreases |path|
  {
    var r := DeletePath(t, path).0;
    if q != [] {
      EntryAtStep(r, q, k);
      EntryAtStep(t, q, k);
      assert (q + [k])[1..] == q[1..] + [k];
      if |path| > 1 && q[0] == path[0] {
        if path[0] in t.children {
          EntryAtDeletePath(t.children[path[0]], path[1..], q[1..], k);
        } else {
          EntryAtEmpty<V>(q[1..], k);
        }
      }
    }
  }

  /** After `DeletePath` nothing is left at the path. */
  lemma {:induction false} NodeAtDeletePath<V>(t: Tree<V>, path: Path)
    requires path != []
    ensures NodeAt(DeletePath(t, path).0, path) == None
    decreases |path|
  {
    if |path| > 1 && path[0] in t.children {
      NodeAtDeletePath(t.children[path[0]], path[1..]);
    }
  }

  /** A node on neither side of the deleted path is left as it was. */
  lemma {:induction false} NodeAtDeletePathFrame<V>(t: Tree<V>, path: Path, q: Path)
    requires !(q <= path) && !(path <= q)
    ensures NodeAt(DeletePath(t, path).0, q) == NodeAt(t, q)
    decreases |path|
  {
    if |path| > 1 && q[0] == path[0] && path[0] in t.children {
      NodeAtDeletePathFrame(t.children[path[0]], path[1..], q[1..]);
    }
  }

  /** Writing the same entry twice leaves the tree as writing it once. */
  lemma {:induction false} SetEntryIdempotent<V>(t: Tree<V>, key: string, e: Entry<V>, path: Path)
    ensures SetEntry(SetEntry(t, key, e, path), key, e, path) == SetEntry(t, key, e, path)
    decreases |path|
  {
    if path != [] {
      SetEntryIdempotent(Child(t, path[0]), key, e, path[1..]);
    }
  }

  /** Grafting the same subtree twice leaves the tree as grafting it once. */
  lemma {:induction false} SetSubCacheIdempotent<V>(t: Tree<V>, key: string, sub: Tree<V>, path: Path)
    ensures SetSubCache(SetSubCache(t, key, sub, path), key, sub, path) == SetSubCache(t, key, sub, path)
    decreases |path|
  {
    if path != [] {
      SetSubCacheIdempotent(Child(t, path[0]), key, sub, path[1..]);
    }
  }

}
