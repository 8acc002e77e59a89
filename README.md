# Package repository addressing and memoization (rez)

This project models, in Dafny, how rez addresses its package repositories.
It covers `PackageRepositoryManager` and the default behaviour of the
`PackageRepository` base class in `src/rez/package_repository.py`.

An entry of the `packages_path` setting is either a bare location or
`type:location`. The entry is split at its first `:`. A bare entry belongs to
the `filesystem` type. Only a filesystem location is canonicalized, by
`os.path.realpath`. The result is the normalized URI `type:location`.

The manager keeps two memo tables. The first is keyed by the raw entry
(`get_repository`). The second is keyed by the normalized URI
(`_get_repository`), which splits the URI again, looks the plugin class up
by type name and builds one repository per URI. All repositories share the
manager's resource pool. A resource handle is routed to the repository named
by its `repository_type` and `location` attributes. That repository fetches
the resource from the pool and stamps it with itself. `clear_caches` empties
both memo tables and the pool.

Files:

- `results.dfy`: `Option` and `Result`, for Python's `None` and raised exceptions.
- `paths.dfy` (module `RepositoryPaths`): parsing, canonicalization, URI
  formatting and splitting, and the lemmas about them. These are pure functions.
- `package_repository.dfy` (module `Repositories`): the resource pool, the
  repository and the manager as classes with mutable fields, plus the
  handle-routing lemmas.

Modelling choices:

- `os.path.realpath` is a parameter `realpath: string -> string` of every
  lookup. Nothing is assumed about it: it need not be idempotent or
  one-to-one.
- The raw-entry table answers from its memory even if `realpath` would now
  give a different URI. This is the source's behaviour, for example after a
  symlink changes. The ghost field `pathUri` records the URI each raw entry
  was normalized to when it was cached. `Valid()` ties every raw entry to the
  instance cached for that recorded URI. For a type other than `filesystem`,
  the recorded URI is the verbatim one, which does not depend on `realpath`.
- The plugin registry is a map from type name to plugin class. A type missing
  from it yields `Err(UnknownRepositoryType(t))`, and nothing is cached.
  This matches `lru_cache`, which does not memoize a raised exception.
- The ghost field `constructed` lists the URIs of the repositories built
  since the last clear. `Valid()` requires it to have no repeats and to equal
  the URI table's keys. This is the "at most one repository per URI until
  `clear_caches`" property.
- `"%s" % None` is `"None"`. So a handle without a `repository_type`
  attribute is routed to the type named `None` (`MissingTypeRoutesToNone`).

## Model

| member | source | states |
|---|---|---|
| RepositoryPaths.SplitOnce | src/rez/package_repository.py:211 | `split(':', 1)` gives one part exactly when there is no `:`, and that part is the whole string. Otherwise it gives two parts: the first has no `:`, and joining them with `:` gives back the input. |
| RepositoryPaths.Canonicalize | src/rez/package_repository.py:216-217 | The type is kept. A `filesystem` location becomes `realpath` of itself, and any other address is returned unchanged. |
| RepositoryPaths.FormatUriLayout | src/rez/package_repository.py:219 | The URI built by `"%s:%s"` is the type, one `:`, then the location, with nothing added or dropped. |
| RepositoryPaths.ParsePath | src/rez/package_repository.py:210-215 | The parsed type never contains `:`. A bare entry is `("filesystem", entry)`. Otherwise the entry is exactly `type:location`. |
| RepositoryPaths.BarePathIsFilesystem | src/rez/package_repository.py:211-217 | An entry with no `:` gets type `filesystem`, keeps the whole string as its location, and normalizes to `filesystem:` plus `realpath` of that string. |
| RepositoryPaths.SplitAtFirstSeparator | src/rez/package_repository.py:211-215 | `t:l` with a colon-free `t` parses to exactly `(t, l)`, so any later colons stay in the location. |
| RepositoryPaths.OnlyFilesystemIsCanonicalized | src/rez/package_repository.py:216-217 | For a type other than `filesystem`, the URI is the same under any two `realpath` functions and keeps the location verbatim. For `filesystem`, the location becomes `realpath` of the parsed one. |
| RepositoryPaths.NormalizePath | src/rez/package_repository.py:210-219 | The normalized URI contains `:`, and splitting it gives exactly the parsed, canonicalized address. |
| RepositoryPaths.SplitUri | src/rez/package_repository.py:247 | `_get_repository`'s split yields a colon-free type, and formatting the pair again gives the same URI (split then format). |
| RepositoryPaths.FormatThenSplit | src/rez/package_repository.py:247 | Splitting the URI built at line 219 from a colon-free type gives back the same type and location (format then split). |
| RepositoryPaths.FormatUriInjective | src/rez/package_repository.py:219 | Two addresses with colon-free types give equal URIs if and only if they are equal. |
| RepositoryPaths.ParseFormatted | src/rez/package_repository.py:233-235 | A formatted URI read again as an entry parses to the address it was built from. |
| RepositoryPaths.ExplicitFilesystemPrefix | src/rez/package_repository.py:211-219 | A colon-free location and the same location prefixed with `filesystem:` normalize to the same URI. |
| RepositoryPaths.RenormalizeStable | src/rez/package_repository.py:216-219 | Normalizing a normalized URI again leaves it unchanged if and only if its type is not `filesystem` or `realpath` fixes its location. |
| Repositories.ResourceHandle.Get | src/rez/package_repository.py:231-232 | `handle.get(name)` is present exactly when the handle has the attribute, and then it is the attribute's value. |
| Repositories.Show | src/rez/package_repository.py:233 | `%s` formatting shows a present value as itself and an absent one as `None`. |
| Repositories.HandlePath | src/rez/package_repository.py:231-233 | The rebuilt path is the shown `repository_type`, one `:`, then the shown `location`. |
| Repositories.HandleRouting | src/rez/package_repository.py:231-235 | A handle with a colon-free `repository_type` t and a location l is parsed as `(t, l)` and routed to the URI of that address, canonicalized. |
| Repositories.MissingTypeRoutesToNone | src/rez/package_repository.py:231-233 | A handle without `repository_type` is routed to the type `None`. |
| Repositories.HandleRoutesToItsRepository | src/rez/package_repository.py:231-235 | A handle that carries the type and location of a URI is routed back to that URI, when `realpath` fixes an already canonical filesystem location. |
| Repositories.PoolCacheSize | src/rez/package_repository.py:192-195 | The pool is unbounded (`None`) if and only if the configured size is negative. Otherwise the size is passed through unchanged. |
| Repositories.Resource.constructor | src/rez/package_repository.py:165 | A resource the pool builds carries its handle and has no repository stamped yet. |
| Repositories.ResourcePool.constructor | src/rez/package_repository.py:195 | The pool gets the configured size and starts with no resources and no registered keys. |
| Repositories.ResourcePool.RegisterResource | src/rez/package_repository.py:41 | The pool's known resource keys gain the key. The cached resources are unchanged. |
| Repositories.ResourcePool.GetResourceFromHandle | src/rez/package_repository.py:165 | A cached handle returns its cached resource. An unregistered key fails and nothing changes. Otherwise a fresh resource for the handle is stored under it and returned. |
| Repositories.ResourcePool.ClearCaches | src/rez/package_repository.py:243 | The pool holds no resources afterwards. The registered keys are kept. |
| Repositories.PackageRepository.constructor | src/rez/package_repository.py:23-33 | The repository is bound to its location and the given pool, and no uid is computed yet. |
| Repositories.PackageRepository.RegisterResource | src/rez/package_repository.py:35-41 | Registration is delegated to the bound pool. |
| Repositories.PackageRepository.DefaultUid | src/rez/package_repository.py:169-181 | `_uid` is the pair of the plugin's `name()` and the location. |
| Repositories.PackageRepository.Uid | src/rez/package_repository.py:43-52 | `uid` is `(name(), location)`, the default of `_uid` at line 181. It is stored on first use, and a stored value is returned unchanged. |
| Repositories.PackageRepository.VariantStateHandle | src/rez/package_repository.py:134-148 | By default the state handle of any variant is `None` (unsupported). |
| Repositories.PackageRepository.LastReleaseTime | src/rez/package_repository.py:150-162 | By default the last release time of any family is `0` (unknown). |
| Repositories.PackageRepository.GetResource | src/rez/package_repository.py:164-167 | Returns what the pool returns for the handle (cached, fresh, or the failure), stamped with this repository. Only that one resource object is written. |
| Repositories.PackageRepositoryManager.constructor | src/rez/package_repository.py:191-195 | The manager gets a fresh pool sized by `PoolCacheSize` of the setting. Both memo tables start empty. |
| Repositories.PackageRepositoryManager.GetRepositoryByUri | src/rez/package_repository.py:245-250 | A cached URI returns its instance. An unknown type fails with nothing cached. Otherwise one fresh repository of the registered class, at the split location and on the shared pool, is cached and recorded as constructed once. |
| Repositories.PackageRepositoryManager.GetRepository | src/rez/package_repository.py:197-220 | It fails if and only if the parsed type is unregistered. A cached entry returns its cached instance. Otherwise the URI table decides: the cached instance of the normalized URI, or a fresh one constructed for it. The result is then cached under the raw entry, and that URI is recorded for the entry. |
| Repositories.PackageRepositoryManager.GetResource | src/rez/package_repository.py:222-237 | An unregistered handle type fails, and the pool and all three tables are unchanged. For a registered type, the memo tables change exactly as for `get_repository` of the rebuilt path. The pool then decides the outcome. An equal handle returns the identical cached resource. An unregistered resource key fails with the pool unchanged. Otherwise a fresh resource is stored under the handle, with the other entries kept. A returned resource is stamped with the repository cached for the rebuilt path. A failed call leaves the already cached resource, and its stamp, as they were. |
| Repositories.PackageRepositoryManager.StampedResource | src/rez/package_repository.py:236 | The pool step of `get_resource` keeps the manager's invariant. It returns the cached resource, the unregistered-key failure, or a fresh resource stored under the handle, stamped with the chosen repository. |
| Repositories.PackageRepositoryManager.ClearCaches | src/rez/package_repository.py:239-243 | Both memo tables and the pool are empty, and the records of constructed repositories and of entry URIs restart. |
| Repositories.CachedEntryIsUriInstance | src/rez/package_repository.py:197-220 | A cached entry of a type other than `filesystem` is the instance cached for its normalized URI. |
| Repositories.SameUriSameRepository | src/rez/package_repository.py:197-220 | Two entries that normalize to the same URI get the identical instance, and at most one repository is constructed for them. This holds whether or not they are cached already. A cached filesystem entry counts when it was cached under the URI it normalizes to now, that is, when its real path has not changed since. |
| Repositories.ClearRebuildsResource | src/rez/package_repository.py:222-243 | Equal handles get the identical resource until `clear_caches`. After it, the same handle gets a newly built resource. |
| Repositories.ClearForcesReconstruction | src/rez/package_repository.py:239-250 | After `clear_caches`, the same entry gets a newly constructed repository, distinct from the earlier one. |
| Repositories.UidIdentifiesRepository | src/rez/package_repository.py:169-181 | When every plugin class's `name()` is its registry key, equal default uids of cached repositories mean the same URI and the same instance. |

## Left out

- `PackageRepository.name` and the abstract lookups `get_package_family`, `iter_package_families`, `iter_packages`, `iter_variants`, `get_parent_package_family`, `get_parent_package` and `get_developer_package` are left out. The base class only raises `NotImplementedError` for them, and no backend is part of this model.
- `get_package_repository_types` is left out: it only enumerates the foreign plugin manager.
- `rez.utils.resources.ResourcePool` is not part of this model. It is modelled as a map from handle to resource, with registered resource keys and a clear operation. Failures of backend-specific resource construction are not modelled.
- Repositories.ResourcePool.GetResourceFromHandle: never evicts. The LRU eviction of a bounded pool is not modelled, because the pool's source is not part of this model. `cacheSize` is only recorded.
- `os.path.realpath` is filesystem I/O. It is a function parameter with no assumed properties.
- `plugin_manager` is a fixed map given to the manager's constructor. The resource registrations a concrete plugin's `__init__` performs are not modelled.
- Thread safety and at-most-once construction under concurrent access are left out. The code has no locking, and the model is sequential.
- The two memo tables are, in the source, `lru_cache` wrappers of class-level methods (lines 197 and 245). They are keyed by `(self, path)` and shared by every manager instance, so `clear_caches` (lines 241-242) empties the tables of all managers. The model gives each manager its own `pathCache` and `uriCache`. So in the model, clearing one manager leaves another manager's tables as they were. The source builds a single manager (line 254).
- The module-level singleton (line 254) and the loading of `config` are left out. The `resource_caching_maxsize` value is a constructor parameter.
- Handle attribute values are modelled as strings. Formatting a value of another type with `%s` is not modelled.
- The `_repository` back-reference is a plain nullable reference. Weak-reference and garbage-collection behaviour is not modelled.
- Repositories.PackageRepository.Uid: states the base-class default only. Plugins that override `_uid` are not modelled.
