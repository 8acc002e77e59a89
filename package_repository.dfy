/**
 * Package repositories and their manager.
 *
 * The manager hands out one repository instance per normalized URI, keeps a
 * second memo table keyed by the raw `packages_path` entry in front of it,
 * and routes resource handles to the repository they belong to. Every
 * repository shares the manager's resource pool, which memoizes resources
 * by handle; a repository stamps each resource it returns with itself.
 */
module Repositories {
  import opened Results
  import opened RepositoryPaths

  /** Failures the manager and the repositories propagate to their callers. */
  datatype RepositoryError =
    | UnknownRepositoryType(repoType: string)  // no plugin of that name
    | UnregisteredResource(key: string)        // no resource class for the handle's key

  /** A repository plugin class; `name` is the value of its `name()` class method. */
  datatype RepositoryType = RepositoryType(name: string)

  /** Opaque staleness token of a variant. */
  datatype StateHandle = StateHandle(token: string)

  /** Identity of a resource: its resource key and its attributes. */
  datatype ResourceHandle = ResourceHandle(key: string, variables: map<string, string>)
  {
    /** The attribute `name`, or None when the handle has no such attribute. */
    function Get(name: string): (v: Option<string>)
      ensures v.Some? <==> name in variables
      ensures v.Some? ==> v.value == variables[name]
    {
      if name in variables then Some(variables[name]) else None
    }
  }

  /** Python's `"%s" % v` for an attribute value that may be None. */
  function Show(v: Option<string>): (s: string)
    ensures v.Some? ==> s == v.value
    ensures v.None? ==> s == "None"
  {
    match v
    case Some(s) => s
    case None => "None"
  }

  /** The entry `get_resource` builds from a handle: `repository_type:location`. */
  function HandlePath(handle: ResourceHandle): (path: string)
    ensures var t := Show(handle.Get("repository_type"));
      |path| > |t| && path[..|t|] == t && path[|t|] == Separator &&
      path[|t| + 1..] == Show(handle.Get("location"))
  {
    Show(handle.Get("repository_type")) + [Separator] + Show(handle.Get("location"))
  }

  /**
   * A handle whose type has no separator is routed to the URI formed from its
   * type and its location, canonicalized as any other entry.
   */
  lemma HandleRouting(handle: ResourceHandle, realpath: string -> string)
    requires handle.Get("repository_type").Some?
    requires Separator !in handle.Get("repository_type").value
    ensures var a := Address(handle.Get("repository_type").value, Show(handle.Get("location")));
      ParsePath(HandlePath(handle)) == a &&
      NormalizePath(HandlePath(handle), realpath) == FormatUri(Canonicalize(a, realpath))
  {
    SplitAtFirstSeparator(handle.Get("repository_type").value, Show(handle.Get("location")));
  }

  /** A handle without a `repository_type` attribute is routed to the type named "None". */
  lemma MissingTypeRoutesToNone(handle: ResourceHandle)
    requires handle.Get("repository_type").None?
    ensures ParsePath(HandlePath(handle)).repoType == "None"
  {
    SplitAtFirstSeparator("None", Show(handle.Get("location")));
  }

  /**
   * A handle carrying the address of a repository's URI is routed back to that
   * very URI, provided `realpath` leaves an already canonical filesystem
   * location as it is.
   */
  lemma HandleRoutesToItsRepository(handle: ResourceHandle, a: Address, realpath: string -> string)
    requires Separator !in a.repoType
    requires handle.Get("repository_type") == Some(a.repoType)
    requires handle.Get("location") == Some(a.location)
    requires a.repoType == Filesystem ==> realpath(a.location) == a.location
    ensures NormalizePath(HandlePath(handle), realpath) == FormatUri(a)
  {
    HandleRouting(handle, realpath);
  }

  /** The pool size the manager configures: a negative setting means unbounded. */
  function PoolCacheSize(resourceCachingMaxsize: int): (size: Option<nat>)
    ensures size.None? <==> resourceCachingMaxsize < 0
    ensures size.Some? ==> size.value == resourceCachingMaxsize
  {
    if resourceCachingMaxsize < 0 then None else Some(resourceCachingMaxsize)
  }

  /** The resource `pool` holds for `handle`, as a set of at most one object. */
  function CachedResource(pool: ResourcePool, handle: ResourceHandle): (s: set<Resource>)
    reads pool
  {
    if handle in pool.entries then {pool.entries[handle]} else {}
  }

  /**
   * `repo` serves the raw entry `path`: it has the entry's plugin, and unless
   * the type is the filesystem it is the instance cached for the entry's
   * verbatim URI (a filesystem entry may outlive a change of its real path).
   */
  ghost predicate ServesIn(
    registry: map<string, RepositoryType>, uriCache: map<string, PackageRepository>, path: string, repo: PackageRepository)
  {
    && ParsePath(path).repoType in registry
    && repo.repositoryType == registry[ParsePath(path).repoType]
    && (ParsePath(path).repoType != Filesystem ==>
          repo.location == ParsePath(path).location &&
          FormatUri(ParsePath(path)) in uriCache && uriCache[FormatUri(ParsePath(path))] == repo)
  }

  /** Every raw entry maps to a repository that serves it. */
  ghost predicate PathsServedIn(
    registry: map<string, RepositoryType>, pathCache: map<string, PackageRepository>, uriCache: map<string, PackageRepository>)
  {
    forall p :: p in pathCache ==> ServesIn(registry, uriCache, p, pathCache[p])
  }

  /** Caching a repository under a new URI keeps every raw entry served. */
  lemma ServedAfterNewUri(
    registry: map<string, RepositoryType>, pathCache: map<string, PackageRepository>, uriCache: map<string, PackageRepository>,
    uri: string, repo: PackageRepository)
    requires PathsServedIn(registry, pathCache, uriCache)
    requires uri !in uriCache
    ensures PathsServedIn(registry, pathCache, uriCache[uri := repo])
  {
    forall p | p in pathCache
      ensures ServesIn(registry, uriCache[uri := repo], p, pathCache[p])
    {
      assert ServesIn(registry, uriCache, p, pathCache[p]);
    }
  }

  /** Caching a raw entry under a repository that serves it keeps every raw entry served. */
  lemma ServedAfterNewPath(
    registry: map<string, RepositoryType>, pathCache: map<string, PackageRepository>, uriCache: map<string, PackageRepository>,
    path: string, repo: PackageRepository)
    requires PathsServedIn(registry, pathCache, uriCache)
    requires ServesIn(registry, uriCache, path, repo)
    ensures PathsServedIn(registry, pathCache[path := repo], uriCache)
  {
  }

  /** Every raw entry maps to the repository cached for the URI recorded for it. */
  ghost predicate PathsRecordedIn(
    pathCache: map<string, PackageRepository>, pathUri: map<string, string>, uriCache: map<string, PackageRepository>)
  {
    forall p :: p in pathCache ==> p in pathUri && pathUri[p] in uriCache && uriCache[pathUri[p]] == pathCache[p]
  }

  /** Caching a repository under a new URI keeps every raw entry's record. */
  lemma RecordedAfterNewUri(
    pathCache: map<string, PackageRepository>, pathUri: map<string, string>, uriCache: map<string, PackageRepository>,
    uri: string, repo: PackageRepository)
    requires PathsRecordedIn(pathCache, pathUri, uriCache)
    requires uri !in uriCache
    ensures PathsRecordedIn(pathCache, pathUri, uriCache[uri := repo])
  {
  }

  /** Caching a raw entry under the repository of its URI keeps every record. */
  lemma RecordedAfterNewPath(
    pathCache: map<string, PackageRepository>, pathUri: map<string, string>, uriCache: map<string, PackageRepository>,
    path: string, uri: string)
    requires PathsRecordedIn(pathCache, pathUri, uriCache)
    requires uri in uriCache
    ensures PathsRecordedIn(pathCache[path := uriCache[uri]], pathUri[path := uri], uriCache)
  {
  }

  /** A resource materialized by the pool, with its back-reference to a repository. */
  class Resource {
    const handle: ResourceHandle
    var repository: PackageRepository?

    constructor (handle: ResourceHandle)
      ensures this.handle == handle && repository == null
    {
      this.handle := handle;
      repository := null;
    }
  }

  /** The resource pool shared by all repositories of one manager. */
  class ResourcePool {
    const cacheSize: Option<nat>
    var resourceKeys: set<string>
    var entries: map<ResourceHandle, Resource>

    /** Every cached resource is the one built for its handle. */
    ghost predicate Valid()
      reads this
    {
      forall h :: h in entries ==> entries[h].handle == h
    }

    constructor (cacheSize: Option<nat>)
      ensures Valid()
      ensures this.cacheSize == cacheSize && resourceKeys == {} && entries == map[]
    {
      this.cacheSize := cacheSize;
      resourceKeys := {};
      entries := map[];
    }

    method RegisterResource(key: string)
      modifies this
      ensures resourceKeys == old(resourceKeys) + {key}
      ensures entries == old(entries)
    {
      resourceKeys := resourceKeys + {key};
    }

    /** The cached resource of `handle`, or a new one stored under it. */
    method GetResourceFromHandle(handle: ResourceHandle) returns (r: Result<Resource, RepositoryError>)
      requires Valid()
      modifies this
      ensures Valid()
      ensures resourceKeys == old(resourceKeys)
      ensures handle in old(entries) ==> r == Ok(old(entries)[handle]) && entries == old(entries)
      ensures handle !in old(entries) && handle.key !in resourceKeys ==>
        r == Err(UnregisteredResource(handle.key)) && entries == old(entries)
      ensures handle !in old(entries) && handle.key in resourceKeys ==>
        r.Ok? && fresh(r.value) && r.value.repository == null &&
        entries == old(entries)[handle := r.value]
      ensures r.Ok? ==> r.value.handle == handle
    {
      if handle in entries {
        r := Ok(entries[handle]);
      } else if handle.key !in resourceKeys {
        r := Err(UnregisteredResource(handle.key));
      } else {
        var resource := new Resource(handle);
        entries := entries[handle := resource];
        r := Ok(resource);
      }
    }

    method ClearCaches()
      modifies this
      ensures Valid()
      ensures entries == map[] && resourceKeys == old(resourceKeys)
    {
      entries := map[];
    }
  }

  /** A repository of one plugin type at one location, bound to the shared pool. */
  class PackageRepository {
    const repositoryType: RepositoryType
    const location: string
    const pool: ResourcePool
    var uidCache: Option<(string, string)>

    /** A cached uid is the default one. */
    ghost predicate Valid()
      reads this
    {
      uidCache.Some? ==> uidCache.value == (repositoryType.name, location)
    }

    constructor (repositoryType: RepositoryType, location: string, pool: ResourcePool)
      ensures Valid()
      ensures this.repositoryType == repositoryType && this.location == location && this.pool == pool
      ensures uidCache == None
    {
      this.repositoryType := repositoryType;
      this.location := location;
      this.pool := pool;
      uidCache := None;
    }

    /** The default unique identifier: the type name and the location. */
    function DefaultUid(): (u: (string, string))
      ensures u.0 == repositoryType.name && u.1 == location
    {
      (repositoryType.name, location)
    }

    /** The unique identifier, computed on first use and kept from then on. */
    method Uid() returns (u: (string, string))
      requires Valid()
      modifies this`uidCache
      ensures Valid()
      ensures u == (repositoryType.name, location)
      ensures uidCache == Some(u)
      ensures old(uidCache).Some? ==> uidCache == old(uidCache)
    {
      if uidCache.None? {
        uidCache := Some(DefaultUid());
      }
      u := uidCache.value;
    }

    method RegisterResource(key: string)
      modifies pool
      ensures pool.resourceKeys == old(pool.resourceKeys) + {key}
      ensures pool.entries == old(pool.entries)
    {
      pool.RegisterResource(key);
    }

    /** The default state handle: None, meaning that staleness is not tracked. */
    function VariantStateHandle(variant: Resource): (h: Option<StateHandle>)
      ensures h.None?
    {
      None
    }

    /** The default last release time: zero, meaning unknown. */
    function LastReleaseTime(family: Resource): (t: int)
      ensures t == 0
    {
      0
    }

    /** The pool's resource for `handle`, stamped with this repository. */
    method GetResource(handle: ResourceHandle) returns (r: Result<Resource, RepositoryError>)
      requires pool.Valid()
      modifies pool, CachedResource(pool, handle)
      ensures pool.Valid()
      ensures pool.resourceKeys == old(pool.resourceKeys)
      ensures handle in old(pool.entries) ==> r == Ok(old(pool.entries)[handle]) && pool.entries == old(pool.entries)
      ensures handle !in old(pool.entries) && handle.key !in pool.resourceKeys ==>
        r == Err(UnregisteredResource(handle.key)) && pool.entries == old(pool.entries)
      ensures handle !in old(pool.entries) && handle.key in pool.resourceKeys ==>
        r.Ok? && fresh(r.value) && pool.entries == old(pool.entries)[handle := r.value]
      ensures r.Ok? ==> r.value.handle == handle && r.value.repository == this
    {
      r := pool.GetResourceFromHandle(handle);
      if r.Ok? {
        r.value.repository := this;
      }
    }
  }

  /** The manager: memoized repositories per entry and per URI, and the shared pool. */
  class PackageRepositoryManager {
    const registry: map<string, RepositoryType>
    const pool: ResourcePool
    var pathCache: map<string, PackageRepository>
    var uriCache: map<string, PackageRepository>
    /** URIs of the repositories constructed since the caches were last cleared, in order. */
    ghost var constructed: seq<string>
    /** The normalized URI each raw entry had when it was cached. */
    ghost var pathUri: map<string, string>

    /** `repo` is the instance `_get_repository` builds for `uri`. */
    ghost predicate BuiltFor(uri: string, repo: PackageRepository)
      reads repo
    {
      && Separator in uri
      && SplitUri(uri).repoType in registry
      && repo.repositoryType == registry[SplitUri(uri).repoType]
      && repo.location == SplitUri(uri).location
      && repo.pool == pool
      && repo.Valid()
    }

    /** `repo` serves the raw entry `path` in the current URI cache. */
    ghost predicate ServesPath(path: string, repo: PackageRepository)
      reads this
    {
      ServesIn(registry, uriCache, path, repo)
    }

    /** Every cached repository was built for its URI. */
    ghost predicate UrisBuilt()
      reads this, uriCache.Values
    {
      forall u :: u in uriCache ==> BuiltFor(u, uriCache[u])
    }

    /** Every raw entry maps to a repository that serves it. */
    ghost predicate PathsServed()
      reads this
    {
      PathsServedIn(registry, pathCache, uriCache)
    }

    /** Every raw entry maps to the repository cached for the URI it had when it was cached. */
    ghost predicate PathsRecorded()
      reads this
    {
      PathsRecordedIn(pathCache, pathUri, uriCache)
    }

    /** Distinct URIs hold distinct instances, and each URI was constructed once. */
    ghost predicate ConstructedOnce()
      reads this
    {
      && (forall u, v :: u in uriCache && v in uriCache && u != v ==> uriCache[u] != uriCache[v])
      && (forall u :: u in uriCache <==> u in constructed)
      && (forall i, j :: 0 <= i < j < |constructed| ==> constructed[i] != constructed[j])
    }

    ghost predicate Valid()
      reads this, pool, uriCache.Values
    {
      pool.Valid() && UrisBuilt() && PathsServed() && PathsRecorded() && ConstructedOnce()
    }

    constructor (resourceCachingMaxsize: int, registry: map<string, RepositoryType>)
      ensures Valid() && fresh(pool)
      ensures pool.cacheSize == PoolCacheSize(resourceCachingMaxsize)
      ensures pool.entries == map[] && pool.resourceKeys == {}
      ensures this.registry == registry
      ensures pathCache == map[] && uriCache == map[] && constructed == [] && pathUri == map[]
    {
      this.registry := registry;
      pool := new ResourcePool(PoolCacheSize(resourceCachingMaxsize));
      pathCache := map[];
      uriCache := map[];
      constructed := [];
      pathUri := map[];
    }

    /** `_get_repository`: the repository of a normalized URI, constructed on a miss. */
    method GetRepositoryByUri(uri: string) returns (r: Result<PackageRepository, RepositoryError>)
      requires Valid()
      requires Separator in uri
      modifies this
      ensures Valid()
      ensures pathCache == old(pathCache) && pathUri == old(pathUri)
      ensures r.Err? <==> SplitUri(uri).repoType !in registry
      ensures r.Err? ==>
        r.error == UnknownRepositoryType(SplitUri(uri).repoType) &&
        uriCache == old(uriCache) && constructed == old(constructed)
      ensures uri in old(uriCache) ==>
        r == Ok(old(uriCache)[uri]) && uriCache == old(uriCache) && constructed == old(constructed)
      ensures uri !in old(uriCache) && r.Ok? ==>
        fresh(r.value) && uriCache == old(uriCache)[uri := r.value] && constructed == old(constructed) + [uri]
      ensures r.Ok? ==> uri in uriCache && uriCache[uri] == r.value && BuiltFor(uri, r.value)
    {
      if uri in uriCache {
        r := Ok(uriCache[uri]);
        return;
      }
      var a := SplitUri(uri);
      if a.repoType !in registry {
        r := Err(UnknownRepositoryType(a.repoType));
        return;
      }
      var repo := new PackageRepository(registry[a.repoType], a.location, pool);
      ghost var before := uriCache;
      uriCache := uriCache[uri := repo];
      constructed := constructed + [uri];
      r := Ok(repo);
      assert UrisBuilt() by {
        assert BuiltFor(uri, repo);
        forall u | u in uriCache
          ensures BuiltFor(u, uriCache[u])
        {
          if u != uri {
            assert uriCache[u] == before[u];
          }
        }
      }
      RecordedAfterNewUri(pathCache, pathUri, before, uri, repo);
      ServedAfterNewUri(registry, pathCache, before, uri, repo);
    }

    /** `get_repository`: the repository of a `packages_path` entry. */
    method GetRepository(path: string, realpath: string -> string) returns (r: Result<PackageRepository, RepositoryError>)
      requires Valid()
      modifies this
      ensures Valid()
      ensures r.Err? <==> ParsePath(path).repoType !in registry
      ensures r.Err? ==>
        r.error == UnknownRepositoryType(ParsePath(path).repoType) &&
        pathCache == old(pathCache) && uriCache == old(uriCache) && constructed == old(constructed)
      ensures path in old(pathCache) ==>
        r == Ok(old(pathCache)[path]) &&
        pathCache == old(pathCache) && uriCache == old(uriCache) && constructed == old(constructed)
      ensures path !in old(pathCache) && NormalizePath(path, realpath) in old(uriCache) ==>
        r == Ok(old(uriCache)[NormalizePath(path, realpath)]) &&
        uriCache == old(uriCache) && constructed == old(constructed)
      ensures path !in old(pathCache) && NormalizePath(path, realpath) !in old(uriCache) && r.Ok? ==>
        fresh(r.value) && uriCache == old(uriCache)[NormalizePath(path, realpath) := r.value] &&
        constructed == old(constructed) + [NormalizePath(path, realpath)]
      ensures path !in old(pathCache) && r.Ok? ==>
        r.value == uriCache[NormalizePath(path, realpath)] &&
        pathCache == old(pathCache)[path := r.value] &&
        SplitUri(NormalizePath(path, realpath)).location == r.value.location
      ensures path !in old(pathCache) && r.Ok? ==> pathUri == old(pathUri)[path := NormalizePath(path, realpath)]
      ensures path in old(pathCache) || r.Err? ==> pathUri == old(pathUri)
      ensures r.Ok? ==> path in pathCache && pathCache[path] == r.value && ServesPath(path, r.value)
      ensures r.Ok? ==> r.value in uriCache.Values && r.value.pool == pool
    {
      if path in pathCache {
        r := Ok(pathCache[path]);
        return;
      }
      var uri := NormalizePath(path, realpath);
      r := GetRepositoryByUri(uri);
      if r.Ok? {
        ghost var beforePaths, beforeUris := pathCache, pathUri;
        assert ServesPath(path, r.value);
        pathCache := pathCache[path := r.value];
        pathUri := pathUri[path := uri];
        assert r.value in uriCache.Values by {
          assert uriCache[uri] == r.value;
        }
        RecordedAfterNewPath(beforePaths, beforeUris, uriCache, path, uri);
        ServedAfterNewPath(registry, beforePaths, uriCache, path, r.value);
      }
    }

    /** `get_resource`: the resource of a handle, from the repository the handle names. */
    method GetResource(handle: ResourceHandle, realpath: string -> string) returns (r: Result<Resource, RepositoryError>)
      requires Valid()
      modifies this, pool, CachedResource(pool, handle)
      ensures Valid()
      ensures pool.resourceKeys == old(pool.resourceKeys)
      ensures ParsePath(HandlePath(handle)).repoType !in registry ==>
        r == Err(UnknownRepositoryType(ParsePath(HandlePath(handle)).repoType)) &&
        pool.entries == old(pool.entries) &&
        pathCache == old(pathCache) && uriCache == old(uriCache) && constructed == old(constructed)
      ensures r.Err? ==> unchanged(old(CachedResource(pool, handle)))
      ensures HandlePath(handle) in old(pathCache) ==>
        pathCache == old(pathCache) && uriCache == old(uriCache) && constructed == old(constructed)
      ensures HandlePath(handle) !in old(pathCache) && ParsePath(HandlePath(handle)).repoType in registry ==>
        HandlePath(handle) in pathCache &&
        pathCache == old(pathCache)[HandlePath(handle) := pathCache[HandlePath(handle)]] &&
        NormalizePath(HandlePath(handle), realpath) in uriCache &&
        pathCache[HandlePath(handle)] == uriCache[NormalizePath(HandlePath(handle), realpath)]
      ensures HandlePath(handle) !in old(pathCache) && NormalizePath(HandlePath(handle), realpath) in old(uriCache) ==>
        uriCache == old(uriCache) && constructed == old(constructed)
      ensures (HandlePath(handle) !in old(pathCache) && NormalizePath(HandlePath(handle), realpath) !in old(uriCache) &&
               ParsePath(HandlePath(handle)).repoType in registry) ==>
        fresh(uriCache[NormalizePath(HandlePath(handle), realpath)]) &&
        uriCache == old(uriCache)[NormalizePath(HandlePath(handle), realpath) := uriCache[NormalizePath(HandlePath(handle), realpath)]] &&
        constructed == old(constructed) + [NormalizePath(HandlePath(handle), realpath)]
      ensures ParsePath(HandlePath(handle)).repoType in registry && handle in old(pool.entries) ==>
        r == Ok(old(pool.entries)[handle]) && pool.entries == old(pool.entries)
      ensures (ParsePath(HandlePath(handle)).repoType in registry && handle !in old(pool.entries) &&
               handle.key !in pool.resourceKeys) ==>
        r == Err(UnregisteredResource(handle.key)) && pool.entries == old(pool.entries)
      ensures (ParsePath(HandlePath(handle)).repoType in registry && handle !in old(pool.entries) &&
               handle.key in pool.resourceKeys) ==>
        r.Ok? && fresh(r.value) && pool.entries == old(pool.entries)[handle := r.value]
      ensures r.Ok? ==> handle in pool.entries && pool.entries[handle] == r.value && r.value.handle == handle
      ensures r.Ok? ==> HandlePath(handle) in pathCache && r.value.repository == pathCache[HandlePath(handle)]
      ensures r.Ok? && HandlePath(handle) !in old(pathCache) ==>
        NormalizePath(HandlePath(handle), realpath) in uriCache &&
        r.value.repository == uriCache[NormalizePath(HandlePath(handle), realpath)]
    {
      var path := HandlePath(handle);
      var repo := GetRepository(path, realpath);
      if repo.Err? {
        r := Err(repo.error);
        return;
      }
      r := StampedResource(repo.value, handle);
    }

    /** The second half of `get_resource`: the pool's resource, stamped by a repository of this manager. */
    method StampedResource(repo: PackageRepository, handle: ResourceHandle) returns (r: Result<Resource, RepositoryError>)
      requires Valid()
      requires repo.pool == pool
      modifies pool, CachedResource(pool, handle)
      ensures Valid()
      ensures pool.resourceKeys == old(pool.resourceKeys)
      ensures handle in old(pool.entries) ==> r == Ok(old(pool.entries)[handle]) && pool.entries == old(pool.entries)
      ensures handle !in old(pool.entries) && handle.key !in pool.resourceKeys ==>
        r == Err(UnregisteredResource(handle.key)) && pool.entries == old(pool.entries)
      ensures handle !in old(pool.entries) && handle.key in pool.resourceKeys ==>
        r.Ok? && fresh(r.value) && pool.entries == old(pool.entries)[handle := r.value]
      ensures r.Ok? ==> handle in pool.entries && pool.entries[handle] == r.value && r.value.handle == handle
      ensures r.Ok? ==> r.value.repository == repo
    {
      r := repo.GetResource(handle);
    }

    /** `clear_caches`: forget every repository and every pooled resource. */
    method ClearCaches()
      requires Valid()
      modifies this, pool
      ensures Valid()
      ensures pathCache == map[] && uriCache == map[] && constructed == [] && pathUri == map[]
      ensures pool.entries == map[] && pool.resourceKeys == old(pool.resourceKeys)
    {
      pathCache := map[];
      uriCache := map[];
      constructed := [];
      pathUri := map[];
      pool.ClearCaches();
    }
  }

  /**
   * A cached entry of a type other than the filesystem is the instance cached
   * for its normalized URI, whatever `realpath` is now.
   */
  lemma CachedEntryIsUriInstance(m: PackageRepositoryManager, path: string, realpath: string -> string)
    requires m.Valid()
    requires path in m.pathCache
    requires ParsePath(path).repoType != Filesystem
    ensures NormalizePath(path, realpath) in m.uriCache
    ensures m.pathCache[path] == m.uriCache[NormalizePath(path, realpath)]
  {
    assert m.ServesPath(path, m.pathCache[path]);
    assert NormalizePath(path, realpath) == FormatUri(ParsePath(path));
  }

  /**
   * Two entries that normalize to the same URI yield the identical repository,
   * and at most one is constructed for them, unless one of them is a
   * filesystem entry cached when `realpath` gave it another URI.
   */
  method SameUriSameRepository(m: PackageRepositoryManager, p1: string, p2: string, realpath: string -> string)
    returns (r1: Result<PackageRepository, RepositoryError>, r2: Result<PackageRepository, RepositoryError>)
    requires m.Valid()
    requires p1 in m.pathCache && ParsePath(p1).repoType == Filesystem ==>
      p1 in m.pathUri && m.pathUri[p1] == NormalizePath(p1, realpath)
    requires p2 in m.pathCache && ParsePath(p2).repoType == Filesystem ==>
      p2 in m.pathUri && m.pathUri[p2] == NormalizePath(p2, realpath)
    requires NormalizePath(p1, realpath) == NormalizePath(p2, realpath)
    modifies m
    ensures m.Valid()
    ensures r1 == r2
    ensures r1.Ok? <==> ParsePath(p1).repoType in m.registry
    ensures |m.constructed| <= |old(m.constructed)| + 1
  {
    ghost var uri := NormalizePath(p1, realpath);
    assert ParsePath(p1).repoType == SplitUri(uri).repoType == ParsePath(p2).repoType;
    if p1 in m.pathCache && ParsePath(p1).repoType != Filesystem {
      CachedEntryIsUriInstance(m, p1, realpath);
    }
    r1 := m.GetRepository(p1, realpath);
    assert r1.Ok? ==> uri in m.uriCache && r1.value == m.uriCache[uri];
    ghost var afterFirst := m.constructed;
    if p2 in m.pathCache && ParsePath(p2).repoType != Filesystem {
      CachedEntryIsUriInstance(m, p2, realpath);
    }
    r2 := m.GetRepository(p2, realpath);
    assert r1.Ok? ==> m.constructed == afterFirst;
  }

  /**
   * Equal handles get the identical resource until `clear_caches`; after it,
   * the same handle gets a newly built resource.
   */
  method ClearRebuildsResource(m: PackageRepositoryManager, handle: ResourceHandle, realpath: string -> string)
    returns (first: Result<Resource, RepositoryError>, again: Result<Resource, RepositoryError>,
             cleared: Result<Resource, RepositoryError>)
    requires m.Valid()
    requires ParsePath(HandlePath(handle)).repoType in m.registry
    requires handle.key in m.pool.resourceKeys
    modifies m, m.pool, CachedResource(m.pool, handle)
    ensures m.Valid()
    ensures first.Ok? && again.Ok? && cleared.Ok?
    ensures first.value == again.value && cleared.value != first.value
  {
    first := m.GetResource(handle, realpath);
    again := m.GetResource(handle, realpath);
    m.ClearCaches();
    cleared := m.GetResource(handle, realpath);
  }

  /** After `clear_caches`, looking an entry up again constructs a new repository. */
  method ClearForcesReconstruction(m: PackageRepositoryManager, path: string, realpath: string -> string)
    returns (before: Result<PackageRepository, RepositoryError>, after: Result<PackageRepository, RepositoryError>)
    requires m.Valid()
    requires ParsePath(path).repoType in m.registry
    modifies m, m.pool
    ensures m.Valid()
    ensures before.Ok? && after.Ok? && before.value != after.value
    ensures m.uriCache == map[NormalizePath(path, realpath) := after.value]
    ensures m.constructed == [NormalizePath(path, realpath)]
  {
    before := m.GetRepository(path, realpath);
    m.ClearCaches();
    after := m.GetRepository(path, realpath);
  }

  /**
   * With plugin classes named as they are registered, the default uid of a
   * cached repository determines its URI, so no two cached repositories share one.
   */
  lemma UidIdentifiesRepository(m: PackageRepositoryManager, u1: string, u2: string)
    requires m.Valid()
    requires forall t :: t in m.registry ==> m.registry[t].name == t
    requires u1 in m.uriCache && u2 in m.uriCache
    requires m.uriCache[u1].DefaultUid() == m.uriCache[u2].DefaultUid()
    ensures u1 == u2 && m.uriCache[u1] == m.uriCache[u2]
  {
    assert m.BuiltFor(u1, m.uriCache[u1]) && m.BuiltFor(u2, m.uriCache[u2]);
    FormatUriInjective(SplitUri(u1), SplitUri(u2));
  }
}
