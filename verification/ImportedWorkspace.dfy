/**
 From an archive to the file tree: what the store holds after an import, and what the walk
 then shows of it.
 */
module ImportedWorkspace {
  import opened Text
  import opened Paths
  import opened PathTree
  import opened VirtualStore
  import Zip
  import ZipImport
  import Crc32
  import TreeWalk

  /** The record of an unpacked entry: its bytes, no media type, its time stamp. */
  function FileOf(stamp: Zip.Entry -> nat, entry: Zip.Entry, data: Zip.Bytes): File {
    File(seq(|data|, i requires 0 <= i < |data| => data[i] as nat), "", stamp(entry))
  }

  /** `records` hold the chosen files in order, each with the bytes its entry unpacks to. */
  ghost predicate Unpacked(p: Zip.Platform, stamp: Zip.Entry -> nat, bytes: Zip.Bytes, chosen: seq<ZipImport.Selected>, records: seq<Record>) {
    && |records| == |chosen|
    && forall i :: 0 <= i < |chosen| ==>
         && Zip.UnzipEntry(p, bytes, chosen[i].entry).Ok?
         && records[i] == Record(chosen[i].path, FileOf(stamp, chosen[i].entry, Zip.UnzipEntry(p, bytes, chosen[i].entry).value))
  }

  ghost function PathsOf(chosen: seq<ZipImport.Selected>): set<string> {
    set i | 0 <= i < |chosen| :: chosen[i].path
  }

  /** The persistent store after the records were written, one after the other. */
  ghost function Stored(listed: seq<Record>): map<string, File> {
    if listed == [] then map[]
    else Stored(listed[..|listed| - 1])[listed[|listed| - 1].path := listed[|listed| - 1].file]
  }

  lemma {:induction false} StoredLists(listed: seq<Record>)
    requires forall i, j :: 0 <= i < j < |listed| ==> listed[i].path != listed[j].path
    ensures Lists(listed, Stored(listed))
  {
    if listed != [] {
      var n := |listed| - 1;
      var init := listed[..n];
      StoredLists(init);
      forall p | p in Stored(listed) ensures exists i :: 0 <= i < |listed| && listed[i].path == p {
        if p != listed[n].path {
          var i :| 0 <= i < |init| && init[i].path == p;
          assert listed[i].path == p;
        }
      }
      forall i | 0 <= i < |listed| ensures listed[i].path in Stored(listed) && Stored(listed)[listed[i].path] == listed[i].file {
        if i < n {
          assert init[i] == listed[i];
        }
      }
    }
  }

  /** A chosen path is a key that normalises to itself and has no excluded segment. */
  lemma ChosenPath(root: string, entries: seq<Zip.Entry>, k: nat)
    requires Zip.Parsed(entries) && ZipImport.IsCommonRoot(entries, root) && k < |ZipImport.UsefulOf(root, entries)|
    ensures var path := ZipImport.UsefulOf(root, entries)[k].path;
            && Faithful(path)
            && forall i :: 0 <= i < |Segments(path)| ==> Segments(path)[i] !in ZipImport.IGNORED_DIRECTORIES
  {
    ZipImport.UsefulMembers(root, entries, k);
    var i :| 0 <= i < |entries| && ZipImport.Useful(root, entries[i])
             && ZipImport.UsefulOf(root, entries)[k] == ZipImport.Selected(entries[i], ZipImport.PathOf(root, entries[i]));
    UsefulPath(root, entries, entries[i]);
  }

  lemma UsefulPath(root: string, entries: seq<Zip.Entry>, entry: Zip.Entry)
    requires entry in entries && ZipImport.IsCommonRoot(entries, root) && ZipImport.Useful(root, entry)
    requires Zip.SafeName(entry.name, false)
    ensures var path := ZipImport.PathOf(root, entry);
            && Faithful(path)
            && forall i :: 0 <= i < |Segments(path)| ==> Segments(path)[i] !in ZipImport.IGNORED_DIRECTORIES
  {
    assert ZipImport.IsFile(entries, entry);
    hide Zip.SafeName;
    var path := ZipImport.PathOf(root, entry);
    ZipImport.PathIsRest(root, entry);
    var segments := ZipImport.Rest(root, entry.name);
    ZipImport.NormalizeSafe(segments, path);
    hide Normalize, Join;
    SplitOfJoin(segments, '/');
    assert Split(path, '/') == segments;
    assert !ZipImport.IsExcluded(path);
    forall i | 0 <= i < |segments| ensures segments[i] !in ZipImport.IGNORED_DIRECTORIES {
      assert segments[i] in Split(path, '/');
    }
    assert path != "";
  }

  lemma ChosenDistinct(root: string, entries: seq<Zip.Entry>)
    requires Zip.Parsed(entries) && ZipImport.IsCommonRoot(entries, root)
    ensures var chosen := ZipImport.UsefulOf(root, entries);
            forall i, j :: 0 <= i < j < |chosen| ==> chosen[i].path != chosen[j].path
  {
    var chosen := ZipImport.UsefulOf(root, entries);
    forall i, j | 0 <= i < j < |chosen| ensures chosen[i].path != chosen[j].path {
      ZipImport.ChosenPathsDistinct(root, entries, i, j);
    }
  }

  /** The directories a path lies in, by their names. */
  ghost predicate InsideGit(path: string) {
    exists i :: 0 <= i < |Segments(path)| - 1 && Segments(path)[i] == ".git"
  }

  /** The store an import leaves: the records seeded in order and kept. */
  ghost function StoreOf(records: seq<Record>): Store {
    Load(EMPTY, records).(records := Stored(records))
  }

  /** `records` are what the archive `bytes` holds for the common root `root`. */
  ghost predicate Imports(p: Zip.Platform, stamp: Zip.Entry -> nat, bytes: Zip.Bytes, root: string, records: seq<Record>) {
    && Zip.ParseDirectory(p, bytes).Ok?
    && var entries := Zip.ParseDirectory(p, bytes).value;
    && ZipImport.IsCommonRoot(entries, root)
    && Unpacked(p, stamp, bytes, ZipImport.UsefulOf(root, entries), records)
  }

  /**
   For every byte array that can be imported: the store is sound, holds exactly the chosen
   files, each with the bytes its entry unpacks to, and the walk can see each of them that
   is not inside a ".git" directory.
   */
  lemma ImportIsShown(p: Zip.Platform, stamp: Zip.Entry -> nat, bytes: Zip.Bytes, root: string, records: seq<Record>)
    requires Imports(p, stamp, bytes, root, records)
    ensures var chosen, s := ZipImport.UsefulOf(root, Zip.ParseDirectory(p, bytes).value), StoreOf(records);
            && Inv(s) && s.files.Keys == PathsOf(chosen)
            && (forall i :: 0 <= i < |chosen| ==>
                  && Zip.UnzipEntry(p, bytes, chosen[i].entry).Ok?
                  && s.files[chosen[i].path] == FileOf(stamp, chosen[i].entry, Zip.UnzipEntry(p, bytes, chosen[i].entry).value))
            && TreeWalk.VisibleFiles(s) == set q | q in PathsOf(chosen) && !InsideGit(q)
  {
    hide Zip.ParseDirectory, Zip.UnzipEntry, FileOf;
    var entries := Zip.ParseDirectory(p, bytes).value;
    Zip.AcceptedNames(p, bytes);
    ImportOfParsed(root, entries, records);
    hide Inv, Load, TreeWalk.VisibleFiles, ZipImport.IsCommonRoot, ZipImport.UsefulOf;
  }

  lemma ImportOfParsed(root: string, entries: seq<Zip.Entry>, records: seq<Record>)
    requires Zip.Parsed(entries) && ZipImport.IsCommonRoot(entries, root)
    requires SamePaths(ZipImport.UsefulOf(root, entries), records)
    ensures Shown(ZipImport.UsefulOf(root, entries), records)
  {
    var chosen := ZipImport.UsefulOf(root, entries);
    ChosenDistinct(root, entries);
    forall k | 0 <= k < |chosen| ensures Plain(chosen[k].path) {
      ChosenPath(root, entries, k);
    }
    hide *;
    LoadedImport(chosen, records);
  }

  ghost predicate SamePaths(chosen: seq<ZipImport.Selected>, records: seq<Record>) {
    |records| == |chosen| && forall i :: 0 <= i < |chosen| ==> records[i].path == chosen[i].path
  }

  /** The store is sound, holds the files of the records, and shows those outside ".git". */
  ghost predicate Shown(chosen: seq<ZipImport.Selected>, records: seq<Record>)
    requires SamePaths(chosen, records)
  {
    var s := StoreOf(records);
    && Inv(s) && s.files.Keys == PathsOf(chosen)
    && (forall i :: 0 <= i < |chosen| ==> chosen[i].path in s.files && s.files[chosen[i].path] == records[i].file)
    && TreeWalk.VisibleFiles(s) == set q | q in PathsOf(chosen) && !InsideGit(q)
  }

  ghost predicate Plain(path: string) {
    Faithful(path) && forall i :: 0 <= i < |Segments(path)| ==> Segments(path)[i] !in ZipImport.IGNORED_DIRECTORIES
  }

  lemma LoadedImport(chosen: seq<ZipImport.Selected>, records: seq<Record>)
    requires SamePaths(chosen, records) && forall k :: 0 <= k < |chosen| ==> Plain(chosen[k].path)
    requires forall i, j :: 0 <= i < j < |chosen| ==> chosen[i].path != chosen[j].path
    ensures Shown(chosen, records)
  {
    assert forall k :: 0 <= k < |records| ==> records[k].path == chosen[k].path && Faithful(records[k].path);
    hide Load, Stored, Inv, Faithful, Plain, Lists, TreeWalk.VisibleFiles, InsideGit;
    LoadedRecords(records);
    StoredKeys(chosen, records);
    SeenFiles(StoreOf(records), chosen);
  }

  lemma EmptyRun(s: Store)
    ensures Run(s, []) == s
  {
  }

  lemma LoadedRecords(records: seq<Record>)
    requires forall i, j :: 0 <= i < j < |records| ==> records[i].path != records[j].path
    requires forall k :: 0 <= k < |records| ==> Faithful(records[k].path)
    ensures var s := Load(EMPTY, records).(records := Stored(records));
            Inv(s) && s.files == Stored(records) && Lists(records, Stored(records))
  {
    var s := Load(EMPTY, records).(records := Stored(records));
    hide *;
    EmptyRun(s);
    StoredLists(records);
    FaithfulRecords(records);
    LoadedIsSound(records, Stored(records), []);
    LoadedFiles(records, Stored(records));
    assert "" !in Stored(records);
    assert Stored(records) - {""} == Stored(records);
  }

  lemma SeenFiles(s: Store, chosen: seq<ZipImport.Selected>)
    requires s.files.Keys == PathsOf(chosen) && forall k :: 0 <= k < |chosen| ==> Plain(chosen[k].path)
    ensures TreeWalk.VisibleFiles(s) == set p | p in PathsOf(chosen) && !InsideGit(p)
  {
    hide InsideGit, TreeWalk.Visible, Segments, Normalize, Join;
    forall p | p in PathsOf(chosen) ensures TreeWalk.Visible(s, "", p) <==> !InsideGit(p) {
      var k :| 0 <= k < |chosen| && chosen[k].path == p;
      SeenUnlessGit(s, p);
    }
  }

  lemma FaithfulRecords(listed: seq<Record>)
    requires Lists(listed, Stored(listed)) && forall i :: 0 <= i < |listed| ==> Faithful(listed[i].path)
    ensures forall p :: p in Stored(listed) ==> Faithful(p) && p != ""
  {
    hide Stored, Normalize;
    forall p | p in Stored(listed) ensures Faithful(p) && p != "" {
      var i :| 0 <= i < |listed| && listed[i].path == p;
    }
  }

  lemma StoredKeys(chosen: seq<ZipImport.Selected>, records: seq<Record>)
    requires SamePaths(chosen, records) && Lists(records, Stored(records))
    ensures Stored(records).Keys == PathsOf(chosen)
    ensures forall i :: 0 <= i < |chosen| ==> Stored(records)[chosen[i].path] == records[i].file
  {
    hide Stored;
    forall p | p in Stored(records) ensures p in PathsOf(chosen) {
      var i :| 0 <= i < |records| && records[i].path == p;
      assert chosen[i].path == p;
    }
    forall i | 0 <= i < |chosen| ensures chosen[i].path in Stored(records) && Stored(records)[chosen[i].path] == records[i].file {
      assert records[i].path == chosen[i].path;
    }
  }

  lemma SeenUnlessGit(s: Store, p: string)
    requires p in s.files && Canonical(p)
    requires forall i :: 0 <= i < |Segments(p)| ==> Segments(p)[i] !in ZipImport.IGNORED_DIRECTORIES
    ensures TreeWalk.Visible(s, "", p) <==> !InsideGit(p)
  {
    RootSegments();
    CanonicalSegments(p);
    assert TreeWalk.IGNORED_DIRECTORIES == ZipImport.IGNORED_DIRECTORIES + {".git"};
    hide Segments, TreeWalk.IGNORED_DIRECTORIES, ZipImport.IGNORED_DIRECTORIES;
  }

  // ---------------------------------------------------------- the import as it runs

  datatype Import =
    | Imported(root: string, records: seq<Record>)
    | BadArchive(error: Zip.Error)
    | BadSelection(why: ZipImport.Selection)
    | BadEntry(index: nat, error: Zip.Error)

  /** Parse the archive, choose its useful files, unpack them in order and check each. */
  method ImportFromZip(p: Zip.Platform, stamp: Zip.Entry -> nat, bytes: Zip.Bytes) returns (r: Import)
    ensures r.Imported? ==> Imports(p, stamp, bytes, r.root, r.records) && r.records != []
    ensures r.BadArchive? <==> Zip.ParseDirectory(p, bytes).Err?
    ensures r.BadArchive? ==> Zip.ParseDirectory(p, bytes).error == r.error
    ensures r.BadSelection? ==>
              exists root :: ZipImport.IsCommonRoot(Zip.ParseDirectory(p, bytes).value, root)
                             && ZipImport.Refused(r.why, ZipImport.UsefulOf(root, Zip.ParseDirectory(p, bytes).value))
    ensures r.BadEntry? ==>
              exists root :: ZipImport.IsCommonRoot(Zip.ParseDirectory(p, bytes).value, root)
                             && FirstBad(p, bytes, ZipImport.UsefulOf(root, Zip.ParseDirectory(p, bytes).value), r.index, r.error)
  {
    hide Zip.ParseDirectory, Zip.UnzipEntry, ZipImport.IsCommonRoot, ZipImport.UsefulOf, ZipImport.Refused, FileOf;
    var parsed := Zip.ParseZipDirectory(p, bytes);
    if parsed.Err? {
      return BadArchive(parsed.error);
    }
    var selection := ZipImport.SelectEntries(parsed.value);
    if !selection.Chosen? {
      return BadSelection(selection);
    }
    var table := Crc32.CrcTable();
    var records: seq<Record> := [];
    for i := 0 to |selection.entries|
      invariant Crc32.IsTable(table[..])
      invariant Unpacked(p, stamp, bytes, selection.entries[..i], records)
    {
      var chosen := selection.entries[i];
      var data := Zip.Unzip(p, table, bytes, chosen.entry);
      if data.Err? {
        assert forall k :: 0 <= k < i ==> selection.entries[..i][k] == selection.entries[k];
        assert FirstBad(p, bytes, selection.entries, i, data.error);
        return BadEntry(i, data.error);
      }
      records := records + [Record(chosen.path, FileOf(stamp, chosen.entry, data.value))];
      assert forall k :: 0 <= k < i ==> selection.entries[..i + 1][k] == selection.entries[..i][k];
    }
    assert selection.entries[..|selection.entries|] == selection.entries;
    r := Imported(selection.root, records);
  }

  /** The entry at `index` is the first that does not unpack. */
  ghost predicate FirstBad(p: Zip.Platform, bytes: Zip.Bytes, chosen: seq<ZipImport.Selected>, index: nat, error: Zip.Error) {
    && index < |chosen| && Zip.UnzipEntry(p, bytes, chosen[index].entry) == Zip.Err(error)
    && forall i :: 0 <= i < index ==> Zip.UnzipEntry(p, bytes, chosen[i].entry).Ok?
  }
}
