/**
 * Addressing of package repositories.
 *
 * An entry of the `packages_path` setting is either a bare location, which
 * belongs to the "filesystem" repository type, or `type:location`. The
 * manager turns an entry into a normalized URI `type:location`, where only
 * filesystem locations are canonicalized, and later splits that URI back
 * into its type and location to pick the repository plugin.
 */
module RepositoryPaths {
  import opened Results

  /** Separator between the repository type and the location. */
  const Separator: char := ':'

  /** The type of a bare entry, and the only type whose location is canonicalized. */
  const Filesystem: string := "filesystem"

  /** A repository type paired with a location in that repository type's terms. */
  datatype Address = Address(repoType: string, location: string)

  /** Index of the first occurrence of `c` in `s`, or None when `c` does not occur. */
  function FirstIndexOf(s: string, c: char): (r: Option<nat>)
    ensures r.None? <==> c !in s
    ensures r.Some? ==> r.value < |s| && s[r.value] == c && c !in s[..r.value]
  {
    if |s| == 0 then None
    else if s[0] == c then Some(0)
    else match FirstIndexOf(s[1..], c)
      case None => None
      case Some(i) =>
        assert s[..i + 1] == [s[0]] + s[1..][..i];
        Some(i + 1)
  }

  /**
   * Python's `s.split(':', 1)`: one part when there is no separator,
   * otherwise the text before the first separator and everything after it.
   */
  function SplitOnce(s: string): (parts: seq<string>)
    ensures |parts| == 1 || |parts| == 2
    ensures |parts| == 1 <==> Separator !in s
    ensures |parts| == 1 ==> parts[0] == s
    ensures |parts| == 2 ==> Separator !in parts[0] && s == parts[0] + [Separator] + parts[1]
  {
    match FirstIndexOf(s, Separator)
    case None => [s]
    case Some(i) =>
      assert s == s[..i] + [Separator] + s[i + 1..];
      [s[..i], s[i + 1..]]
  }

  /** Splitting a string formed as `t:l`, where `t` has no separator, gives back `t` and `l`. */
  lemma SplitOnceOfJoined(t: string, l: string)
    requires Separator !in t
    ensures SplitOnce(t + [Separator] + l) == [t, l]
  {
    var s := t + [Separator] + l;
    assert s[|t|] == Separator;
    assert s[..|t|] == t;
    var i := FirstIndexOf(s, Separator).value;
    assert i <= |t| by {
      assert forall k :: |t| < k <= |s| ==> s[..k][|t|] == Separator;
    }
    assert i >= |t| by {
      assert forall k :: 0 <= k < |t| ==> s[k] == s[..|t|][k];
    }
    assert s[i + 1..] == l;
  }

  /** The entry as `get_repository` splits it, before canonicalization. */
  function ParsePath(path: string): (a: Address)
    ensures Separator !in a.repoType
    ensures Separator !in path ==> a == Address(Filesystem, path)
    ensures Separator in path ==> path == a.repoType + [Separator] + a.location
  {
    var parts := SplitOnce(path);
    if |parts| == 1 then Address(Filesystem, parts[0]) else Address(parts[0], parts[1])
  }

  /** Canonicalization of the location: `realpath` for the filesystem type, nothing otherwise. */
  function Canonicalize(a: Address, realpath: string -> string): (c: Address)
    ensures c.repoType == a.repoType
    ensures a.repoType == Filesystem ==> c.location == realpath(a.location)
    ensures a.repoType != Filesystem ==> c == a
  {
    if a.repoType == Filesystem then Address(a.repoType, realpath(a.location)) else a
  }

  /** The URI `type:location`. */
  function FormatUri(a: Address): (uri: string)
  {
    a.repoType + [Separator] + a.location
  }

  /** The URI is the type, one separator, then the location. */
  lemma FormatUriLayout(a: Address)
    ensures var uri := FormatUri(a);
      |uri| == |a.repoType| + 1 + |a.location| &&
      uri[..|a.repoType|] == a.repoType && uri[|a.repoType|] == Separator &&
      uri[|a.repoType| + 1..] == a.location
  {
  }

  /** `_get_repository`'s split of a URI into type and location; inverse of FormatUri. */
  function SplitUri(uri: string): (a: Address)
    requires Separator in uri
    ensures Separator !in a.repoType
    ensures FormatUri(a) == uri
  {
    var parts := SplitOnce(uri);
    Address(parts[0], parts[1])
  }

  /** The normalized URI of a `packages_path` entry, the key of the repository cache. */
  function NormalizePath(path: string, realpath: string -> string): (uri: string)
    ensures Separator in uri
    ensures SplitUri(uri) == Canonicalize(ParsePath(path), realpath)
  {
    var a := Canonicalize(ParsePath(path), realpath);
    FormatThenSplit(a);
    FormatUri(a)
  }

  /** Splitting a formatted URI gives back exactly the address it was formatted from. */
  lemma FormatThenSplit(a: Address)
    requires Separator !in a.repoType
    ensures Separator in FormatUri(a)
    ensures SplitUri(FormatUri(a)) == a
  {
    SplitOnceOfJoined(a.repoType, a.location);
    assert FormatUri(a)[|a.repoType|] == Separator;
  }

  /** FormatUri is one-to-one on addresses whose type has no separator. */
  lemma FormatUriInjective(a: Address, b: Address)
    requires Separator !in a.repoType && Separator !in b.repoType
    ensures FormatUri(a) == FormatUri(b) <==> a == b
  {
    if FormatUri(a) == FormatUri(b) {
      FormatThenSplit(a);
      FormatThenSplit(b);
    }
  }

  /** A formatted URI, read again as a `packages_path` entry, parses to the same address. */
  lemma ParseFormatted(a: Address)
    requires Separator !in a.repoType
    ensures ParsePath(FormatUri(a)) == a
  {
    SplitOnceOfJoined(a.repoType, a.location);
  }

  /** A bare entry is a filesystem location: its URI is `filesystem:` followed by its real path. */
  lemma BarePathIsFilesystem(path: string, realpath: string -> string)
    requires Separator !in path
    ensures ParsePath(path) == Address(Filesystem, path)
    ensures NormalizePath(path, realpath) == Filesystem + [Separator] + realpath(path)
  {
  }

  /**
   * The entry is split at its first separator only: the type never holds a
   * separator, and every later separator stays in the location.
   */
  lemma SplitAtFirstSeparator(t: string, l: string)
    requires Separator !in t
    ensures ParsePath(t + [Separator] + l) == Address(t, l)
    ensures Separator in l ==> Separator in ParsePath(t + [Separator] + l).location
  {
    ParseFormatted(Address(t, l));
  }

  /**
   * Only filesystem locations are rewritten: for any other type the URI does
   * not depend on `realpath` and keeps the location verbatim; for the
   * filesystem type the location is `realpath` of the given one.
   */
  lemma OnlyFilesystemIsCanonicalized(path: string, realpath: string -> string, other: string -> string)
    ensures ParsePath(path).repoType != Filesystem ==>
      NormalizePath(path, realpath) == NormalizePath(path, other) &&
      SplitUri(NormalizePath(path, realpath)) == ParsePath(path)
    ensures ParsePath(path).repoType == Filesystem ==>
      SplitUri(NormalizePath(path, realpath)) == Address(Filesystem, realpath(ParsePath(path).location))
  {
  }

  /** A bare location and the same location with an explicit `filesystem:` prefix share one URI. */
  lemma ExplicitFilesystemPrefix(location: string, realpath: string -> string)
    requires Separator !in location
    ensures NormalizePath(Filesystem + [Separator] + location, realpath) == NormalizePath(location, realpath)
  {
    ParseFormatted(Address(Filesystem, location));
  }

  /**
   * Normalizing a normalized URI again leaves it unchanged exactly when the
   * type is not the filesystem or `realpath` already fixes the location.
   */
  lemma RenormalizeStable(path: string, realpath: string -> string)
    ensures var a := Canonicalize(ParsePath(path), realpath);
      NormalizePath(NormalizePath(path, realpath), realpath) == NormalizePath(path, realpath) <==>
      (a.repoType != Filesystem || realpath(a.location) == a.location)
  {
    var a := Canonicalize(ParsePath(path), realpath);
    ParseFormatted(a);
    FormatUriInjective(Canonicalize(a, realpath), a);
  }
}
