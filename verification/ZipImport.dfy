/**
 Choosing what to import from a parsed ZIP directory: one common root directory is
 stripped, excluded paths are skipped, and the size limits are enforced.
 */
module ZipImport {
  import opened Text
  import opened Paths
  import opened Zip

  const MAX_PORTABLE_UNCOMPRESSED_BYTES := 512 * 1024 * 1024

  const IGNORED_DIRECTORIES: set<string> := {
    "node_modules", "dist", "build", "target", "vendor", ".next", ".nuxt", ".cache", "coverage", ".gradle",
    ".terraform", ".idea", "__pycache__", ".pytest_cache", ".mypy_cache", ".venv", "venv"
  }

  datatype Selected = Selected(entry: Entry, path: string)

  datatype Selection = Chosen(root: string, entries: seq<Selected>) | TooManyFiles | TooLarge | NothingUseful

  predicate IsExcluded(path: string) {
    var normalized := Normalize(path);
    || normalized == "" || "../" <= normalized || Contains(normalized, "/../") || '\0' in normalized
    || exists segment | segment in Split(normalized, '/') :: segment in IGNORED_DIRECTORIES
  }

  predicate IsAllowedGitMetadata(path: string) {
    var normalized := Normalize(path);
    || normalized in {".git", ".git/refs", ".git/refs/heads"}
    || !(".git/" <= normalized)
    || normalized in {".git/HEAD", ".git/packed-refs", ".git/config"}
    || ".git/refs/heads/" <= normalized
  }

  /** Where an entry goes once the common root is stripped. */
  function PathOf(root: string, entry: Entry): string {
    Normalize(if root != "" && root + "/" <= entry.name then entry.name[|root| + 1..] else entry.name)
  }

  predicate Useful(root: string, entry: Entry) {
    var path := PathOf(root, entry);
    !entry.directory && path != "" && !IsExcluded(path) && IsAllowedGitMetadata(path)
  }

  predicate IsFile(entries: seq<Entry>, entry: Entry) {
    entry in entries && !entry.directory
  }

  /** `entry` lies below the top directory `root`. */
  predicate Below(root: string, entry: Entry) {
    var segments := Segments(entry.name);
    |segments| >= 2 && segments[0] == root
  }

  ghost predicate SomeOutside(entries: seq<Entry>, dir: string) {
    exists e :: IsFile(entries, e) && !Below(dir, e)
  }

  /** `root` is the one top directory every file sits below, or nothing if there is none. */
  ghost predicate IsCommonRoot(entries: seq<Entry>, root: string) {
    if root == "" then
      (exists e :: IsFile(entries, e)) ==> forall dir :: SomeOutside(entries, dir)
    else
      && (exists e :: IsFile(entries, e))
      && forall e :: IsFile(entries, e) ==> Below(root, e)
  }

  method ZipCommonRoot(entries: seq<Entry>) returns (root: string)
    ensures IsCommonRoot(entries, root)
  {
    var roots: seq<string> := [];
    ghost var first: Option<Entry> := None;
    for i := 0 to |entries|
      invariant |roots| <= 1
      invariant roots != [] ==> roots[0] != "" && first.Some? && IsFile(entries, first.value) && Below(roots[0], first.value)
      invariant roots == [] ==> forall e :: !IsFile(entries[..i], e)
      invariant roots != [] ==> forall e :: IsFile(entries[..i], e) ==> Below(roots[0], e)
    {
      var entry := entries[i];
      assert forall e :: IsFile(entries[..i + 1], e) <==> IsFile(entries[..i], e) || (e == entry && !e.directory);
      if entry.directory {
        continue;
      }
      assert IsFile(entries, entry);
      SegmentsProper(entry.name);
      var segments := Segments(entry.name);
      if |segments| < 2 {
        assert forall dir :: !Below(dir, entry) && SomeOutside(entries, dir);
        return "";
      }
      if roots != [] && roots[0] != segments[0] {
        assert forall dir :: (!Below(dir, entry) || !Below(dir, first.value)) && SomeOutside(entries, dir);
        return "";
      }
      roots := [segments[0]];
      first := Some(entry);
    }
    assert entries[..|entries|] == entries;
    root := if roots == [] then "" else roots[0];
  }

  // ---------------------------------------------------------- where files end up

  /** The segments an accepted file name joins. */
  ghost predicate Spells(segments: seq<string>, path: string) {
    && Proper(segments) && segments != [] && "." !in segments && ".." !in segments
    && '\\' !in path && path == Join(segments, '/')
  }

  lemma SafeFileName(name: string)
    requires SafeName(name, false)
    ensures Spells(Segments(name), name)
  {
    var segments :| Proper(segments) && segments != [] && "." !in segments && ".." !in segments
                    && '\\' !in name && name == Join(segments, '/') + "";
    assert name == Join(segments, '/');
    SegmentsOfJoin(segments);
  }

  /** Normalisation leaves safe paths alone. */
  lemma NormalizeSafe(segments: seq<string>, path: string)
    requires Spells(segments, path)
    ensures Normalize(path) == path && Segments(path) == segments
  {
    SlashesFacts(path);
    SegmentsOfJoin(segments);
    NormalizeIsJoin(path);
    JoinStartsWithSegment(segments);
    var first := segments[0];
    if |first| >= 2 {
      assert first[1] == path[1] && first[1] in first;
    } else {
      assert first == [path[0]];
    }
  }

  /** Segments after the stripped root; all of them when there is no root. */
  ghost function Rest(root: string, name: string): seq<string>
    requires root != "" ==> Segments(name) != []
  {
    if root == "" then Segments(name) else Segments(name)[1..]
  }

  /** A file's path is its name without the root, and already in normal form. */
  lemma PathIsRest(root: string, entry: Entry)
    requires SafeName(entry.name, false) && (root != "" ==> Below(root, entry))
    ensures Spells(Rest(root, entry.name), PathOf(root, entry))
    ensures Segments(PathOf(root, entry)) == Rest(root, entry.name)
  {
    var name := entry.name;
    SafeFileName(name);
    var segments := Segments(name);
    if root == "" {
      NormalizeSafe(segments, name);
    } else {
      var rest := Join(segments[1..], '/');
      assert name == segments[0] + ['/'] + rest;
      assert root + "/" <= name && name[|root| + 1..] == rest;
      assert forall c :: c in rest ==> c in name;
      NormalizeSafe(segments[1..], rest);
    }
  }

  /** Distinct accepted file names stay distinct after the root is stripped and the path normalised. */
  lemma PathsStayDistinct(root: string, x: Entry, y: Entry)
    requires SafeName(x.name, false) && SafeName(y.name, false) && x.name != y.name
    requires root != "" ==> Below(root, x) && Below(root, y)
    ensures PathOf(root, x) != PathOf(root, y)
  {
    PathIsRest(root, x);
    PathIsRest(root, y);
    SafeFileName(x.name);
    SafeFileName(y.name);
    if root != "" {
      assert Segments(x.name) == [root] + Rest(root, x.name);
      assert Segments(y.name) == [root] + Rest(root, y.name);
    }
  }

  // ---------------------------------------------------------- the selection

  function UsefulOf(root: string, entries: seq<Entry>): seq<Selected> {
    if entries == [] then []
    else
      var init, last := entries[..|entries| - 1], entries[|entries| - 1];
      UsefulOf(root, init) + if Useful(root, last) then [Selected(last, PathOf(root, last))] else []
  }

  function TotalBytes(selected: seq<Selected>): nat {
    if selected == [] then 0
    else TotalBytes(selected[..|selected| - 1]) + selected[|selected| - 1].entry.uncompressedSize
  }

  lemma {:induction false} UsefulPrefix(root: string, entries: seq<Entry>, i: nat)
    requires i <= |entries|
    ensures UsefulOf(root, entries[..i]) <= UsefulOf(root, entries)
    ensures TotalBytes(UsefulOf(root, entries[..i])) <= TotalBytes(UsefulOf(root, entries))
  {
    hide Useful, PathOf;
    if i < |entries| {
      var init := entries[..|entries| - 1];
      UsefulPrefix(root, init, i);
      assert init[..i] == entries[..i];
      var useful := UsefulOf(root, init);
      var last := entries[|entries| - 1];
      if Useful(root, last) {
        assert (useful + [Selected(last, PathOf(root, last))])[..|useful|] == useful;
      } else {
        assert useful + [] == useful;
      }
    } else {
      assert entries[..i] == entries;
    }
  }

  predicate Refused(selection: Selection, useful: seq<Selected>) {
    match selection
    case TooManyFiles => |useful| > MAX_PORTABLE_FILES
    case TooLarge => TotalBytes(useful) > MAX_PORTABLE_UNCOMPRESSED_BYTES
    case NothingUseful => useful == []
    case Chosen(_, _) => false
  }

  /** The selection is every useful file in directory order, and fails exactly when a limit is broken or none is left. */
  method SelectEntries(entries: seq<Entry>) returns (selection: Selection)
    ensures selection.Chosen? ==> IsCommonRoot(entries, selection.root)
    ensures selection.Chosen? ==> selection.entries == UsefulOf(selection.root, entries) && selection.entries != []
    ensures selection.Chosen? ==> |selection.entries| <= MAX_PORTABLE_FILES
                                  && TotalBytes(selection.entries) <= MAX_PORTABLE_UNCOMPRESSED_BYTES
    ensures !selection.Chosen? ==> exists root :: IsCommonRoot(entries, root) && Refused(selection, UsefulOf(root, entries))
  {
    hide Useful, PathOf, IsCommonRoot;
    var root := ZipCommonRoot(entries);
    var chosen, totalBytes := [], 0;
    for i := 0 to |entries|
      invariant chosen == UsefulOf(root, entries[..i]) && totalBytes == TotalBytes(chosen)
      invariant |chosen| <= MAX_PORTABLE_FILES && totalBytes <= MAX_PORTABLE_UNCOMPRESSED_BYTES
    {
      var entry := entries[i];
      assert entries[..i + 1][..i] == entries[..i];
      UsefulPrefix(root, entries, i + 1);
      if !Useful(root, entry) {
        assert chosen + [] == chosen;
        continue;
      }
      var next := chosen + [Selected(entry, PathOf(root, entry))];
      assert next[..|chosen|] == chosen;
      if |chosen| >= MAX_PORTABLE_FILES {
        return TooManyFiles;
      }
      totalBytes := totalBytes + entry.uncompressedSize;
      if totalBytes > MAX_PORTABLE_UNCOMPRESSED_BYTES {
        return TooLarge;
      }
      chosen := next;
    }
    assert entries[..|entries|] == entries;
    selection := if chosen == [] then NothingUseful else Chosen(root, chosen);
  }

  lemma {:induction false} UsefulMembers(root: string, entries: seq<Entry>, k: nat)
    requires k < |UsefulOf(root, entries)|
    ensures exists i :: 0 <= i < |entries| && Useful(root, entries[i])
                        && UsefulOf(root, entries)[k] == Selected(entries[i], PathOf(root, entries[i]))
  {
    hide Useful, PathOf;
    var init := entries[..|entries| - 1];
    if k < |UsefulOf(root, init)| {
      UsefulMembers(root, init, k);
      var i :| 0 <= i < |init| && Useful(root, init[i])
               && UsefulOf(root, init)[k] == Selected(init[i], PathOf(root, init[i]));
      assert entries[i] == init[i];
    }
  }

  /** Everything chosen from an accepted directory has its own path. */
  lemma {:induction false} ChosenPathsDistinct(root: string, entries: seq<Entry>, j: nat, k: nat)
    requires IsCommonRoot(entries, root) && Parsed(entries)
    requires j < k < |UsefulOf(root, entries)|
    ensures UsefulOf(root, entries)[j].path != UsefulOf(root, entries)[k].path
  {
    ChosenPathsDistinctIn(root, entries, entries, j, k);
  }

  /** For every byte array that parses, the files chosen from it have paths of their own. */
  lemma ImportPathsDistinct(p: Platform, bytes: Bytes, root: string, j: nat, k: nat)
    requires ParseDirectory(p, bytes).Ok? && IsCommonRoot(ParseDirectory(p, bytes).value, root)
    requires j < k < |UsefulOf(root, ParseDirectory(p, bytes).value)|
    ensures var chosen := UsefulOf(root, ParseDirectory(p, bytes).value); chosen[j].path != chosen[k].path
  {
    AcceptedNames(p, bytes);
    hide ParseDirectory;
    ChosenPathsDistinct(root, ParseDirectory(p, bytes).value, j, k);
  }

  lemma {:induction false} ChosenPathsDistinctIn(root: string, all: seq<Entry>, entries: seq<Entry>, j: nat, k: nat)
    requires IsCommonRoot(all, root) && DistinctNames(entries, {})
    requires forall i :: 0 <= i < |entries| ==> entries[i] in all && SafeName(entries[i].name, entries[i].directory)
    requires j < k < |UsefulOf(root, entries)|
    ensures UsefulOf(root, entries)[j].path != UsefulOf(root, entries)[k].path
    decreases |entries|
  {
    hide PathOf, SafeName, Below, IsExcluded, IsAllowedGitMetadata, SomeOutside;
    var init, last := entries[..|entries| - 1], entries[|entries| - 1];
    if k < |UsefulOf(root, init)| {
      ChosenPathsDistinctIn(root, all, init, j, k);
    } else {
      UsefulMembers(root, init, j);
      var i :| 0 <= i < |init| && Useful(root, init[i])
               && UsefulOf(root, init)[j] == Selected(init[i], PathOf(root, init[i]));
      assert init[i] == entries[i];
      assert IsFile(all, entries[i]) && IsFile(all, last);
      PathsStayDistinct(root, entries[i], last);
    }
  }
}
