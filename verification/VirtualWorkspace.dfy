/**
 The store as it runs: `files`, `directories` and the persistent records updated in
 place. Every method is proved to take the step `VirtualStore` reasons about.
 */
module VirtualWorkspace {
  import opened Text
  import opened Paths
  import opened PathTree
  import opened VirtualStore

  /** The directories named by one, two, … and all of the parts. */
  ghost function Trail(parts: seq<string>): set<string> {
    set k | 1 <= k <= |parts| :: Join(parts[..k], '/')
  }

  lemma TrailStep(parts: seq<string>, i: nat)
    requires i < |parts|
    ensures Trail(parts[..i + 1]) == Trail(parts[..i]) + {Join(parts[..i + 1], '/')}
  {
    var longer, shorter := parts[..i + 1], parts[..i];
    forall k | 1 <= k <= i ensures longer[..k] == shorter[..k] {
    }
    assert longer[..i + 1] == longer;
    forall d | d in Trail(longer) ensures d in Trail(shorter) + {Join(longer, '/')} {
      var k :| 1 <= k <= i + 1 && d == Join(longer[..k], '/');
      assert k <= i ==> d == Join(shorter[..k], '/');
    }
    forall d | d in Trail(shorter) ensures d in Trail(longer) {
      var k :| 1 <= k <= i && d == Join(shorter[..k], '/');
      assert d == Join(longer[..k], '/');
    }
    assert Join(longer[..i + 1], '/') in Trail(longer);
  }

  /** Splitting a key gives its segments; their trail is its ancestors and itself. */
  lemma KeyTrail(key: string)
    requires Canonical(key)
    ensures Split(key, '/') == Segments(key) && Proper(Segments(key)) && Segments(key) != []
    ensures Trail(Segments(key)[..|Segments(key)| - 1]) == Ancestors(key)
    ensures Trail(Segments(key)) == Ancestors(key) + {key}
  {
    var segments := Segments(key);
    CanonicalSegments(key);
    SplitOfJoin(segments, '/');
    hide Split, Join, NonEmpty;
    var n := |segments| - 1;
    var init := segments[..n];
    forall k | 1 <= k <= n ensures init[..k] == segments[..k] {
    }
    forall d | d in Ancestors(key) ensures d in Trail(init) {
      var k :| 1 <= k < |segments| && d == Join(segments[..k], '/');
      assert d == Join(init[..k], '/');
    }
    forall d | d in Trail(init) ensures d in Ancestors(key) {
      var k :| 1 <= k <= n && d == Join(init[..k], '/');
      assert d == Join(segments[..k], '/');
    }
    TrailStep(segments, n);
    assert segments[..n + 1] == segments;
  }

  class VirtualWorkspaceStore {
    var files: map<string, File>
    var directories: set<string>
    // The object store of the browser, shared with every later session.
    var records: map<string, File>

    ghost function View(): Store
      reads this
    {
      Store(files, directories, records)
    }

    constructor (listed: seq<Record>, stored: map<string, File>)
      ensures View() == Load(EMPTY, listed).(records := stored)
    {
      files, directories, records := map[], {""}, stored;
      new;
      for i := 0 to |listed|
        invariant records == stored
        invariant Load(View().(records := map[]), listed[i..]) == Load(EMPTY, listed)
      {
        ghost var before := View().(records := map[]);
        assert listed[i..][0] == listed[i] && listed[i..][1..] == listed[i + 1..];
        Seed(listed[i].path, listed[i].file);
        assert View().(records := map[]) == VirtualStore.Seed(before, listed[i].path, listed[i].file);
      }
      assert listed[|listed|..] == [];
    }

    /** Add one directory per part, each below the one before. */
    method AddDirectories(parts: seq<string>)
      requires Proper(parts)
      modifies `directories
      ensures directories == old(directories) + Trail(parts)
    {
      var current := "";
      assert parts[..|parts|] == parts;
      for i := 0 to |parts|
        invariant current == Join(parts[..i], '/')
        invariant directories == old(directories) + Trail(parts[..i])
      {
        ghost var above := current;
        current := if current != "" then current + "/" + parts[i] else parts[i];
        assert parts[..i + 1] == parts[..i] + [parts[i]];
        if i > 0 {
          JoinStartsWithSegment(parts[..i]);
          JoinConcat(parts[..i], [parts[i]]);
        }
        TrailStep(parts, i);
        directories := directories + {current};
      }
    }

    method Seed(path: string, file: File)
      modifies `files, `directories
      ensures View() == VirtualStore.Seed(old(View()), path, file)
    {
      NormalizeCanonical(path);
      var normalized := Normalize(path);
      if normalized == "" {
        return;
      }
      hide Normalize, Ancestors, Trail, Join, Split;
      KeyTrail(normalized);
      files := files[normalized := file];
      var parts := Split(normalized, '/');
      AddDirectories(parts[..|parts| - 1]);
    }

    method Write(path: string, file: File)
      modifies this
      ensures View() == VirtualStore.Write(old(View()), path, file)
    {
      hide Normalize, Ancestors;
      var normalized := Normalize(path);
      Seed(normalized, file);
      records := records[normalized := file];
    }

    method EnsureDirectory(path: string)
      modifies `directories
      ensures View() == VirtualStore.EnsureDirectory(old(View()), path)
    {
      NormalizeCanonical(path);
      var normalized := Normalize(path);
      if normalized == "" {
        return;
      }
      hide Normalize, Ancestors, Trail, Join, Split;
      KeyTrail(normalized);
      AddDirectories(Split(normalized, '/'));
    }

    /** Delete the file, or the directory with everything below it. */
    method Remove(path: string, recursive: bool) returns (outcome: Outcome)
      modifies this
      ensures outcome == RemoveOutcome(old(View()), path, recursive)
      ensures View() == VirtualStore.Remove(old(View()), path, recursive)
    {
      hide Normalize;
      var normalized := Normalize(path);
      if normalized in files {
        files := files - {normalized};
        records := records - {normalized};
        return Done;
      }
      if normalized !in directories {
        return NotFound;
      }
      var filePaths := Below(files.Keys, normalized);
      var childDirectories := Below(directories, normalized);
      if !recursive && (filePaths != {} || childDirectories != {}) {
        return NotEmpty;
      }
      DeleteFiles(filePaths);
      DeleteDirectories(childDirectories);
      directories := directories - {normalized};
      records := records - filePaths;
      return Done;
    }

    method DeleteFiles(paths: set<string>)
      modifies `files
      ensures files == old(files) - paths
    {
      var left := paths;
      while left != {}
        invariant left <= paths && files == old(files) - (paths - left)
        decreases left
      {
        var path :| path in left;
        files := files - {path};
        left := left - {path};
      }
    }

    method DeleteDirectories(paths: set<string>)
      modifies `directories
      ensures directories == old(directories) - paths
    {
      var left := paths;
      while left != {}
        invariant left <= paths && directories == old(directories) - (paths - left)
        decreases left
      {
        var path :| path in left;
        directories := directories - {path};
        left := left - {path};
      }
    }
  }
}
