/**
 The ZIP reader: end record, central directory and local entries at the byte level of
 sections 4.3.7, 4.3.12 and 4.3.16 of PKWARE's APPNOTE.TXT.
 */
module Zip {
  import opened Text
  import opened Paths
  import Crc32

  newtype byte = x: int | 0 <= x < 0x100

  type Bytes = seq<byte>

  datatype Error =
    | EmptyArchive | NoEndRecord | MultiDisk | Zip64 | TooManyEntries | CorruptDirectory
    | BadHeader | Zip64Entry | Encrypted | UnsupportedMethod | AbsoluteName | UnsafeName
    | DuplicateName | SymbolicLink | InconsistentDirectory
    | BadLocalHeader | TruncatedData | InflateFailed | SizeMismatch | IntegrityFailure

  datatype Result<+T> = Ok(value: T) | Err(error: Error)

  /** What the browser supplies: the two text decoders (UTF-8 or Latin-1) and DEFLATE. */
  datatype Platform = Platform(decode: (bool, Bytes) -> string, inflate: Bytes -> Option<Bytes>)

  datatype Entry = Entry(
    name: string, directory: bool, compression: nat, crc: nat,
    compressedSize: nat, uncompressedSize: nat, localOffset: nat, dosDate: nat, dosTime: nat)

  const LOCAL_SIGNATURE := 0x04034b50
  const CENTRAL_SIGNATURE := 0x02014b50
  const EOCD_SIGNATURE := 0x06054b50
  const MAX_PORTABLE_FILES := 20000
  const ALL_ONES := 0xffff_ffff

  // ---------------------------------------------------------- little-endian reads

  function ReadU16(bytes: Bytes, offset: nat): (value: nat)
    requires offset + 2 <= |bytes|
    ensures value < 0x1_0000
  {
    bytes[offset] as int + 0x100 * bytes[offset + 1] as int
  }

  function ReadU32(bytes: Bytes, offset: nat): (value: nat)
    requires offset + 4 <= |bytes|
    ensures value < 0x1_0000_0000
  {
    ReadU16(bytes, offset) + 0x1_0000 * ReadU16(bytes, offset + 2)
  }

  // ---------------------------------------------------------- names

  predicate IsLetter(c: char) {
    'A' <= c <= 'Z' || 'a' <= c <= 'z'
  }

  predicate EndsWithSlash(s: string) {
    s != "" && s[|s| - 1] == '/'
  }

  function NormalizeEntryName(value: string): Result<string> {
    var name := Slashes(value);
    if name == "" || name[0] == '/' || (|name| >= 3 && IsLetter(name[0]) && name[1] == ':' && name[2] == '/') then Err(AbsoluteName)
    else
      var segments := Segments(name);
      if segments == [] || "." in segments || ".." in segments then Err(UnsafeName)
      else Ok(Join(segments, '/') + (if EndsWithSlash(name) then "/" else ""))
  }

  /** Accepted names are relative, use forward slashes only and are free of `.`, `..` and empty segments. */
  ghost predicate SafeName(name: string, directory: bool) {
    exists segments ::
      && Proper(segments) && segments != [] && "." !in segments && ".." !in segments
      && '\\' !in name
      && name == Join(segments, '/') + (if directory then "/" else "")
  }

  lemma {:induction false} JoinLast(segments: seq<string>)
    requires Proper(segments) && segments != []
    ensures Join(segments, '/') != "" && !EndsWithSlash(Join(segments, '/'))
  {
    var joined := Join(segments, '/');
    if |segments| == 1 {
      var last := segments[0];
      assert last[|last| - 1] in last;
    } else {
      JoinLast(segments[1..]);
      var tail := Join(segments[1..], '/');
      assert joined[|joined| - 1] == tail[|tail| - 1];
    }
  }

  lemma AcceptedNameIsSafe(value: string)
    requires NormalizeEntryName(value).Ok?
    ensures SafeName(NormalizeEntryName(value).value, EndsWithSlash(NormalizeEntryName(value).value))
  {
    var segments := Segments(Slashes(value));
    SegmentsProper(Slashes(value));
    SlashesFacts(value);
    SplitChars(Slashes(value), '/');
    SplitParts(Slashes(value), '/');
    NonEmptyProper(Split(Slashes(value), '/'));
    forall i | 0 <= i < |segments|
      ensures '\\' !in segments[i]
    {
      assert segments[i] in Split(Slashes(value), '/');
    }
    JoinChars(segments, '/', '\\');
    JoinLast(segments);
    var name := NormalizeEntryName(value).value;
    assert Join(segments, '/') + "" == Join(segments, '/');
    assert name == Join(segments, '/') + (if EndsWithSlash(name) then "/" else "");
  }

  /**
   An entry name is accepted exactly if, with forward slashes, it is not empty, does not
   start at a root or a drive, and has segments, none of them a dot segment; those are the
   segments of the accepted name, which ends with a slash if the name did.
   */
  lemma NameIff(value: string)
    ensures var name, r := Slashes(value), NormalizeEntryName(value);
            && (r.Ok? <==> && name != "" && name[0] != '/'
                           && !(|name| >= 3 && ('A' <= name[0] <= 'Z' || 'a' <= name[0] <= 'z') && name[1] == ':' && name[2] == '/')
                           && Segments(name) != [] && forall s :: s in Segments(name) ==> s != "." && s != "..")
            && (r.Ok? ==> Segments(r.value) == Segments(name) && (EndsWithSlash(r.value) <==> name[|name| - 1] == '/'))
  {
    var name, r := Slashes(value), NormalizeEntryName(value);
    hide Segments, Split, Slashes, Join;
    if r.Ok? {
      NameSegments(name);
    }
  }

  lemma NameSegments(name: string)
    requires Segments(name) != []
    ensures Segments(Join(Segments(name), '/')) == Segments(name) && Segments(Join(Segments(name), '/') + "/") == Segments(name)
    ensures !EndsWithSlash(Join(Segments(name), '/')) && Join(Segments(name), '/') + "" == Join(Segments(name), '/')
    ensures EndsWithSlash(Join(Segments(name), '/') + "/")
  {
    SegmentsProper(name);
    var segments := Segments(name);
    SegmentsOfJoin(segments);
    JoinLast(segments);
    var joined := Join(segments, '/');
    TrailingSlash(joined, segments);
  }

  lemma TrailingSlash(joined: string, segments: seq<string>)
    requires Proper(segments) && segments != [] && joined == Join(segments, '/')
    ensures Segments(joined + "/") == segments
  {
    var all := segments + [""];
    JoinEmptyLast(segments);
    assert forall i :: 0 <= i < |all| ==> '/' !in all[i];
    SplitOfJoin(all, '/');
    NonEmptyDropsLast(segments);
  }

  lemma {:induction false} JoinEmptyLast(segments: seq<string>)
    requires segments != []
    ensures Join(segments + [""], '/') == Join(segments, '/') + "/"
  {
    var all := segments + [""];
    if |segments| == 1 {
      assert all[1..] == [""];
      assert segments[0] + ['/'] + "" == segments[0] + "/";
    } else {
      assert all[1..] == segments[1..] + [""];
      JoinEmptyLast(segments[1..]);
      assert segments[0] + ['/'] + (Join(segments[1..], '/') + "/") == segments[0] + ['/'] + Join(segments[1..], '/') + "/";
    }
  }

  lemma {:induction false} NonEmptyDropsLast(segments: seq<string>)
    requires Proper(segments)
    ensures NonEmpty(segments + [""]) == segments
  {
    var all := segments + [""];
    if segments == [] {
      assert all == [""] && all[1..] == [];
    } else {
      assert all[0] == segments[0] && all[1..] == segments[1..] + [""];
      NonEmptyDropsLast(segments[1..]);
    }
  }

  // ---------------------------------------------------------- the end record

  /** The last offset in `[minimum, offset]` that holds the end-record signature. */
  function FindFrom(bytes: Bytes, offset: int, minimum: nat): (found: Option<nat>)
    requires offset + 22 <= |bytes|
    ensures found.Some? ==> minimum <= found.value <= offset && ReadU32(bytes, found.value) == EOCD_SIGNATURE
    decreases offset
  {
    if offset < minimum then None
    else if ReadU32(bytes, offset) == EOCD_SIGNATURE then Some(offset)
    else FindFrom(bytes, offset - 1, minimum)
  }

  function Minimum(bytes: Bytes): nat {
    if |bytes| < 65557 then 0 else |bytes| - 65557
  }

  method FindZipEocd(bytes: Bytes) returns (found: Option<nat>)
    requires |bytes| >= 22
    ensures found == FindFrom(bytes, |bytes| - 22, Minimum(bytes))
    ensures found.Some? ==> forall o :: found.value < o <= |bytes| - 22 ==> ReadU32(bytes, o) != EOCD_SIGNATURE
    ensures found.None? ==> forall o :: Minimum(bytes) <= o <= |bytes| - 22 ==> ReadU32(bytes, o) != EOCD_SIGNATURE
  {
    var offset := |bytes| - 22;
    while offset >= Minimum(bytes)
      invariant -1 <= offset <= |bytes| - 22
      invariant FindFrom(bytes, offset, Minimum(bytes)) == FindFrom(bytes, |bytes| - 22, Minimum(bytes))
      invariant forall o :: offset < o <= |bytes| - 22 ==> ReadU32(bytes, o) != EOCD_SIGNATURE
    {
      if ReadU32(bytes, offset) == EOCD_SIGNATURE {
        return Some(offset);
      }
      offset := offset - 1;
    }
    found := None;
  }

  // ---------------------------------------------------------- the central directory

  /** Where the header at `offset` ends, with its name, extra field and comment. */
  function HeaderEnd(bytes: Bytes, offset: nat): nat
    requires offset + 46 <= |bytes|
  {
    offset + 46 + ReadU16(bytes, offset + 28) + ReadU16(bytes, offset + 30) + ReadU16(bytes, offset + 32)
  }

  predicate IsSymbolicLink(versionMadeBy: nat, attributes: nat) {
    versionMadeBy / 0x100 == 3 && attributes / 0x1_0000 / 0x1000 % 0x10 == 0xa
  }

  function ParseHeader(p: Platform, bytes: Bytes, offset: nat, seen: set<string>): Result<Entry> {
    if offset + 46 > |bytes| || ReadU32(bytes, offset) != CENTRAL_SIGNATURE then Err(BadHeader)
    else
      var flags := ReadU16(bytes, offset + 8);
      var compression := ReadU16(bytes, offset + 10);
      var compressedSize := ReadU32(bytes, offset + 20);
      var uncompressedSize := ReadU32(bytes, offset + 24);
      var nameLength := ReadU16(bytes, offset + 28);
      var localOffset := ReadU32(bytes, offset + 42);
      if HeaderEnd(bytes, offset) > |bytes| || localOffset == ALL_ONES || compressedSize == ALL_ONES || uncompressedSize == ALL_ONES then Err(Zip64Entry)
      else if ReadU16(bytes, offset + 34) != 0 then Err(MultiDisk)
      else if flags % 2 == 1 then Err(Encrypted)
      else if compression != 0 && compression != 8 then Err(UnsupportedMethod)
      else
        var name := NormalizeEntryName(p.decode(flags / 0x800 % 2 == 1, bytes[offset + 46..offset + 46 + nameLength]));
        if name.Err? then Err(name.error)
        else if name.value in seen then Err(DuplicateName)
        else if IsSymbolicLink(ReadU16(bytes, offset + 4), ReadU32(bytes, offset + 38)) then Err(SymbolicLink)
        else Ok(Entry(name.value, EndsWithSlash(name.value), compression, ReadU32(bytes, offset + 16),
                      compressedSize, uncompressedSize, localOffset,
                      ReadU16(bytes, offset + 14), ReadU16(bytes, offset + 12)))
  }

  /** `count` headers from `offset` on, and where the last one ends. */
  function ParseHeaders(p: Platform, bytes: Bytes, offset: nat, count: nat, seen: set<string>): Result<(seq<Entry>, nat)>
    decreases count
  {
    if count == 0 then Ok(([], offset))
    else
      var head := ParseHeader(p, bytes, offset, seen);
      if head.Err? then Err(head.error)
      else
        var tail := ParseHeaders(p, bytes, HeaderEnd(bytes, offset), count - 1, seen + {head.value.name});
        if tail.Err? then tail
        else Ok(([head.value] + tail.value.0, tail.value.1))
  }

  function CheckEndRecord(bytes: Bytes, eocd: nat): Option<Error>
    requires eocd + 22 <= |bytes|
  {
    var totalEntries := ReadU16(bytes, eocd + 10);
    var centralSize, centralOffset := ReadU32(bytes, eocd + 12), ReadU32(bytes, eocd + 16);
    if ReadU16(bytes, eocd + 4) != 0 || ReadU16(bytes, eocd + 6) != 0 || ReadU16(bytes, eocd + 8) != totalEntries then Some(MultiDisk)
    else if totalEntries == 0xffff || centralSize == ALL_ONES || centralOffset == ALL_ONES then Some(Zip64)
    else if totalEntries > MAX_PORTABLE_FILES * 4 then Some(TooManyEntries)
    else if eocd + 22 + ReadU16(bytes, eocd + 20) > |bytes| || centralOffset + centralSize > eocd then Some(CorruptDirectory)
    else None
  }

  function ParseDirectory(p: Platform, bytes: Bytes): Result<seq<Entry>> {
    if |bytes| < 22 then Err(EmptyArchive)
    else
      var found := FindFrom(bytes, |bytes| - 22, Minimum(bytes));
      if found.None? then Err(NoEndRecord)
      else
        var eocd := found.value;
        var check := CheckEndRecord(bytes, eocd);
        if check.Some? then Err(check.value)
        else
          var centralSize, centralOffset := ReadU32(bytes, eocd + 12), ReadU32(bytes, eocd + 16);
          var parsed := ParseHeaders(p, bytes, centralOffset, ReadU16(bytes, eocd + 10), {});
          if parsed.Err? then Err(parsed.error)
          else if parsed.value.1 > centralOffset + centralSize then Err(InconsistentDirectory)
          else Ok(parsed.value.0)
  }

  /** Put entries already read in front of what the rest of the directory gives. */
  ghost function Prepend(done: seq<Entry>, rest: Result<(seq<Entry>, nat)>): Result<(seq<Entry>, nat)> {
    if rest.Err? then rest else Ok((done + rest.value.0, rest.value.1))
  }

  lemma PrependNothing(rest: Result<(seq<Entry>, nat)>)
    ensures Prepend([], rest) == rest
  {
    if rest.Ok? {
      assert [] + rest.value.0 == rest.value.0;
    }
  }

  lemma PrependNext(done: seq<Entry>, next: Entry, rest: Result<(seq<Entry>, nat)>)
    ensures Prepend(done, if rest.Err? then rest else Ok(([next] + rest.value.0, rest.value.1)))
         == Prepend(done + [next], rest)
  {
    if rest.Ok? {
      assert done + ([next] + rest.value.0) == (done + [next]) + rest.value.0;
    }
  }

  /** The loop over the headers. */
  method ReadHeaders(p: Platform, bytes: Bytes, centralOffset: nat, totalEntries: nat)
    returns (result: Result<(seq<Entry>, nat)>)
    ensures result == ParseHeaders(p, bytes, centralOffset, totalEntries, {})
  {
    hide ParseHeader, ReadU16, ReadU32;
    var entries, seen, offset := [], {}, centralOffset;
    PrependNothing(ParseHeaders(p, bytes, centralOffset, totalEntries, {}));
    for index := 0 to totalEntries
      invariant Prepend(entries, ParseHeaders(p, bytes, offset, totalEntries - index, seen))
             == ParseHeaders(p, bytes, centralOffset, totalEntries, {})
    {
      var entry := ParseHeader(p, bytes, offset, seen);
      if entry.Err? {
        return Err(entry.error);
      }
      HeaderPresent(p, bytes, offset, seen);
      PrependNext(entries, entry.value,
                  ParseHeaders(p, bytes, HeaderEnd(bytes, offset), totalEntries - index - 1, seen + {entry.value.name}));
      seen := seen + {entry.value.name};
      entries := entries + [entry.value];
      offset := HeaderEnd(bytes, offset);
    }
    assert entries + [] == entries;
    result := Ok((entries, offset));
  }

  lemma HeaderPresent(p: Platform, bytes: Bytes, offset: nat, seen: set<string>)
    requires ParseHeader(p, bytes, offset, seen).Ok?
    ensures offset + 46 <= |bytes| && HeaderEnd(bytes, offset) <= |bytes|
    ensures ReadU32(bytes, offset) == CENTRAL_SIGNATURE
  {
  }

  method ParseZipDirectory(p: Platform, bytes: Bytes) returns (result: Result<seq<Entry>>)
    ensures result == ParseDirectory(p, bytes)
  {
    hide ParseHeaders, FindFrom, ReadU16, ReadU32;
    if |bytes| < 22 {
      return Err(EmptyArchive);
    }
    var found := FindZipEocd(bytes);
    if found.None? {
      return Err(NoEndRecord);
    }
    var eocd := found.value;
    var check := CheckEndRecord(bytes, eocd);
    if check.Some? {
      return Err(check.value);
    }
    var centralSize, centralOffset := ReadU32(bytes, eocd + 12), ReadU32(bytes, eocd + 16);
    var parsed := ReadHeaders(p, bytes, centralOffset, ReadU16(bytes, eocd + 10));
    if parsed.Err? {
      return Err(parsed.error);
    }
    if parsed.value.1 > centralOffset + centralSize {
      return Err(InconsistentDirectory);
    }
    result := Ok(parsed.value.0);
  }

  /** The limit of four times the file cap is never the reason for a rejection: a 16-bit count stays below it. */
  lemma EntryLimitNeverHit(bytes: Bytes, eocd: nat)
    requires eocd + 22 <= |bytes|
    ensures CheckEndRecord(bytes, eocd) != Some(TooManyEntries)
  {
  }

  // ---------------------------------------------------------- what an accepted directory is

  /** The header at `at` is complete, unencrypted, on one disk and of no symbolic link, and holds the fields of `entry`, whose name is safe. */
  ghost predicate HeaderHolds(bytes: Bytes, at: nat, entry: Entry) {
    && at + 46 <= |bytes| && HeaderEnd(bytes, at) <= |bytes|
    && ReadU32(bytes, at) == CENTRAL_SIGNATURE
    && ReadU16(bytes, at + 10) == entry.compression && entry.compression in {0, 8}
    && ReadU32(bytes, at + 16) == entry.crc
    && ReadU32(bytes, at + 20) == entry.compressedSize < ALL_ONES
    && ReadU32(bytes, at + 24) == entry.uncompressedSize < ALL_ONES
    && ReadU32(bytes, at + 42) == entry.localOffset < ALL_ONES
    && ReadU16(bytes, at + 8) % 2 == 0 && ReadU16(bytes, at + 34) == 0
    && (ReadU16(bytes, at + 4) / 0x100 == 3 ==> ReadU32(bytes, at + 38) / 0x1000_0000 != 0xa)
    && SafeName(entry.name, entry.directory)
  }

  /** The headers of `entries` fill the bytes from `start` to `end` one after the other. */
  ghost predicate Chain(bytes: Bytes, start: nat, entries: seq<Entry>, end: nat)
    decreases |entries|
  {
    if entries == [] then start == end
    else HeaderHolds(bytes, start, entries[0]) && Chain(bytes, HeaderEnd(bytes, start), entries[1..], end)
  }

  ghost predicate DistinctNames(entries: seq<Entry>, seen: set<string>) {
    && (forall i :: 0 <= i < |entries| ==> entries[i].name !in seen)
    && (forall i, j :: 0 <= i < j < |entries| ==> entries[i].name != entries[j].name)
  }

  lemma SymbolicLinkIff(versionMadeBy: nat, attributes: nat)
    requires attributes < 0x1_0000_0000
    ensures IsSymbolicLink(versionMadeBy, attributes) <==> versionMadeBy / 0x100 == 3 && attributes / 0x1000_0000 == 0xa
  {
    var high := attributes / 0x1_0000;
    assert high < 0x1_0000 && high / 0x1000 == attributes / 0x1000_0000;
  }

  lemma HeaderFacts(p: Platform, bytes: Bytes, offset: nat, seen: set<string>)
    requires ParseHeader(p, bytes, offset, seen).Ok?
    ensures HeaderHolds(bytes, offset, ParseHeader(p, bytes, offset, seen).value)
    ensures ParseHeader(p, bytes, offset, seen).value.name !in seen
  {
    hide NormalizeEntryName, SafeName, ReadU16, ReadU32, IsSymbolicLink;
    var nameLength := ReadU16(bytes, offset + 28);
    var text := p.decode(ReadU16(bytes, offset + 8) / 0x800 % 2 == 1, bytes[offset + 46..offset + 46 + nameLength]);
    SymbolicLinkIff(ReadU16(bytes, offset + 4), ReadU32(bytes, offset + 38));
    if NormalizeEntryName(text).Ok? {
      AcceptedNameIsSafe(text);
    }
  }

  lemma {:induction false} HeadersFacts(p: Platform, bytes: Bytes, offset: nat, count: nat, seen: set<string>)
    requires ParseHeaders(p, bytes, offset, count, seen).Ok?
    ensures var (entries, end) := ParseHeaders(p, bytes, offset, count, seen).value;
            |entries| == count && DistinctNames(entries, seen) && Chain(bytes, offset, entries, end)
    decreases count
  {
    hide ParseHeader, SafeName, ReadU16, ReadU32;
    if count > 0 {
      var head := ParseHeader(p, bytes, offset, seen).value;
      HeaderFacts(p, bytes, offset, seen);
      HeaderPresent(p, bytes, offset, seen);
      var next := HeaderEnd(bytes, offset);
      HeadersFacts(p, bytes, next, count - 1, seen + {head.name});
      var entries := ParseHeaders(p, bytes, offset, count, seen).value.0;
      var tail := ParseHeaders(p, bytes, next, count - 1, seen + {head.name}).value.0;
      assert entries[1..] == tail;
    }
  }

  /** `entries` are what the directory that the end record at `eocd` points to holds. */
  ghost predicate DirectoryHolds(bytes: Bytes, eocd: nat, entries: seq<Entry>) {
    && eocd + 22 <= |bytes| && ReadU32(bytes, eocd) == EOCD_SIGNATURE
    && |entries| == ReadU16(bytes, eocd + 10)
    && DistinctNames(entries, {})
    && var start, size := ReadU32(bytes, eocd + 16), ReadU32(bytes, eocd + 12);
    && start + size <= eocd
    && exists end: nat :: end <= start + size && Chain(bytes, start, entries, end)
  }

  /**
   For every byte array the parser either rejects or returns exactly the declared number
   of entries; their headers follow each other inside the central directory, which ends
   before the end record, and the names are safe and pairwise distinct.
   */
  lemma AcceptedDirectory(p: Platform, bytes: Bytes)
    requires ParseDirectory(p, bytes).Ok?
    ensures exists eocd :: DirectoryHolds(bytes, eocd, ParseDirectory(p, bytes).value)
  {
    hide ParseHeaders, Chain, ParseHeader, ReadU16, ReadU32;
    var eocd := FindFrom(bytes, |bytes| - 22, Minimum(bytes)).value;
    HeadersFacts(p, bytes, ReadU32(bytes, eocd + 16), ReadU16(bytes, eocd + 10), {});
    assert DirectoryHolds(bytes, eocd, ParseDirectory(p, bytes).value);
  }

  /** Every name is safe and none occurs twice. */
  ghost predicate Parsed(entries: seq<Entry>) {
    && DistinctNames(entries, {})
    && forall i :: 0 <= i < |entries| ==> SafeName(entries[i].name, entries[i].directory)
  }

  lemma {:induction false} ChainNames(bytes: Bytes, start: nat, entries: seq<Entry>, end: nat)
    requires Chain(bytes, start, entries, end)
    ensures forall i :: 0 <= i < |entries| ==> SafeName(entries[i].name, entries[i].directory)
    decreases |entries|
  {
    hide SafeName, ReadU16, ReadU32;
    if entries != [] {
      ChainNames(bytes, HeaderEnd(bytes, start), entries[1..], end);
      assert forall i :: 0 < i < |entries| ==> entries[i] == entries[1..][i - 1];
    }
  }

  /** Whatever bytes the parser accepts, the names it returns are safe and distinct. */
  lemma AcceptedNames(p: Platform, bytes: Bytes)
    requires ParseDirectory(p, bytes).Ok?
    ensures Parsed(ParseDirectory(p, bytes).value)
  {
    hide ParseDirectory, SafeName, ReadU16, ReadU32, Chain;
    AcceptedDirectory(p, bytes);
    var entries := ParseDirectory(p, bytes).value;
    var eocd: nat :| DirectoryHolds(bytes, eocd, entries);
    var start, size := ReadU32(bytes, eocd + 16), ReadU32(bytes, eocd + 12);
    var end: nat :| end <= start + size && Chain(bytes, start, entries, end);
    ChainNames(bytes, start, entries, end);
  }

  // ---------------------------------------------------------- one entry

  function Bit(n: nat, weight: nat, mask: bv8): bv8
    requires weight > 0
  {
    if n / weight % 2 == 1 then mask else 0
  }

  /** A byte as the eight bits the checksum works on. */
  function Octet(b: byte): bv8 {
    var n := b as int;
    Bit(n, 1, 1) | Bit(n, 2, 2) | Bit(n, 4, 4) | Bit(n, 8, 8) | Bit(n, 16, 16) | Bit(n, 32, 32) | Bit(n, 64, 64) | Bit(n, 128, 128)
  }

  function Octets(data: Bytes): seq<bv8> {
    seq(|data|, i requires 0 <= i < |data| => Octet(data[i]))
  }

  lemma OctetBits(b: byte)
    ensures var n, o := b as int, Octet(b);
            && (o & 1 != 0 <==> n % 2 == 1) && (o & 2 != 0 <==> n / 2 % 2 == 1)
            && (o & 4 != 0 <==> n / 4 % 2 == 1) && (o & 8 != 0 <==> n / 8 % 2 == 1)
            && (o & 16 != 0 <==> n / 16 % 2 == 1) && (o & 32 != 0 <==> n / 32 % 2 == 1)
            && (o & 64 != 0 <==> n / 64 % 2 == 1) && (o & 128 != 0 <==> n / 128 % 2 == 1)
  {
  }

  lemma OctetInjective(x: byte, y: byte)
    requires Octet(x) == Octet(y)
    ensures x == y
  {
    OctetBits(x);
    OctetBits(y);
    hide Octet;
    BitsDetermine(x as int, y as int);
  }

  lemma BitsDetermine(x: nat, y: nat)
    requires x < 0x100 && y < 0x100
    requires x % 2 == y % 2 && x / 2 % 2 == y / 2 % 2 && x / 4 % 2 == y / 4 % 2 && x / 8 % 2 == y / 8 % 2
    requires x / 16 % 2 == y / 16 % 2 && x / 32 % 2 == y / 32 % 2 && x / 64 % 2 == y / 64 % 2 && x / 128 % 2 == y / 128 % 2
    ensures x == y
  {
    Halves(x);
    Halves(y);
  }

  lemma Halves(x: nat)
    requires x < 0x100
    ensures x / 128 == x / 128 % 2 && x / 64 == 2 * (x / 128) + x / 64 % 2 && x / 32 == 2 * (x / 64) + x / 32 % 2
    ensures x / 16 == 2 * (x / 32) + x / 16 % 2 && x / 8 == 2 * (x / 16) + x / 8 % 2 && x / 4 == 2 * (x / 8) + x / 4 % 2
    ensures x / 2 == 2 * (x / 4) + x / 2 % 2 && x == 2 * (x / 2) + x % 2
  {
  }

  /** The CRC-32 of the data, as an unsigned number. */
  function Checksum(data: Bytes): nat {
    Crc32.Crc(Octets(data)) as int
  }

  function CheckedData(data: Bytes, entry: Entry): Result<Bytes> {
    if |data| != entry.uncompressedSize then Err(SizeMismatch)
    else if Checksum(data) != entry.crc then Err(IntegrityFailure)
    else Ok(data)
  }

  function UnzipEntry(p: Platform, bytes: Bytes, entry: Entry): Result<Bytes> {
    var offset := entry.localOffset;
    if offset + 30 > |bytes| || ReadU32(bytes, offset) != LOCAL_SIGNATURE then Err(BadLocalHeader)
    else
      var start := offset + 30 + ReadU16(bytes, offset + 26) + ReadU16(bytes, offset + 28);
      var end := start + entry.compressedSize;
      if start > |bytes| || end > |bytes| then Err(TruncatedData)
      else if entry.compression == 0 then CheckedData(bytes[start..end], entry)
      else
        var inflated := p.inflate(bytes[start..end]);
        if inflated.None? then Err(InflateFailed) else CheckedData(inflated.value, entry)
  }

  /** Unpack one entry, checking its size and its table-driven checksum. */
  method Unzip(p: Platform, table: array<bv32>, bytes: Bytes, entry: Entry) returns (result: Result<Bytes>)
    requires Crc32.IsTable(table[..])
    ensures result == UnzipEntry(p, bytes, entry)
  {
    var offset := entry.localOffset;
    if offset + 30 > |bytes| || ReadU32(bytes, offset) != LOCAL_SIGNATURE {
      return Err(BadLocalHeader);
    }
    var start := offset + 30 + ReadU16(bytes, offset + 26) + ReadU16(bytes, offset + 28);
    var end := start + entry.compressedSize;
    if start > |bytes| || end > |bytes| {
      return Err(TruncatedData);
    }
    var data := bytes[start..end];
    if entry.compression != 0 {
      var inflated := p.inflate(data);
      if inflated.None? {
        return Err(InflateFailed);
      }
      data := inflated.value;
    }
    if |data| != entry.uncompressedSize {
      return Err(SizeMismatch);
    }
    var checksum := Crc32.ComputeCrc(table, Octets(data));
    if checksum as int != entry.crc {
      return Err(IntegrityFailure);
    }
    result := Ok(data);
  }

  /** The four bytes "PK" 3 4. */
  ghost predicate LocalMark(bytes: Bytes, at: nat) {
    at + 4 <= |bytes| && bytes[at] == 0x50 && bytes[at + 1] == 0x4b && bytes[at + 2] == 3 && bytes[at + 3] == 4
  }

  lemma LocalMarkIff(bytes: Bytes, at: nat)
    requires at + 4 <= |bytes|
    ensures LocalMark(bytes, at) <==> ReadU32(bytes, at) == LOCAL_SIGNATURE
  {
    var a, b, c, d := bytes[at] as int, bytes[at + 1] as int, bytes[at + 2] as int, bytes[at + 3] as int;
    assert ReadU32(bytes, at) == a + 0x100 * b + 0x1_0000 * c + 0x100_0000 * d;
    assert LOCAL_SIGNATURE == 0x50 + 0x100 * 0x4b + 0x1_0000 * 3 + 0x100_0000 * 4;
  }

  /** The local header of an entry and the range of its data are there. */
  ghost predicate Present(bytes: Bytes, entry: Entry) {
    && entry.localOffset + 30 <= |bytes| && LocalMark(bytes, entry.localOffset)
    && LocalEnd(bytes, entry.localOffset) + entry.compressedSize <= |bytes|
  }

  /** Where a local header ends, with its name and extra field. */
  ghost function LocalEnd(bytes: Bytes, at: nat): nat
    requires at + 30 <= |bytes|
  {
    at + 30 + bytes[at + 26] as int + 0x100 * bytes[at + 27] as int + bytes[at + 28] as int + 0x100 * bytes[at + 29] as int
  }

  /**
   Unpacking, told by the bytes: an entry with method 0 or 8 gives `data` exactly if the
   local header and the range of its data are there, `data` is that range itself or what it
   inflates to, and its length and bit-serial checksum are those of the directory.
   */
  lemma UnzipIff(p: Platform, bytes: Bytes, entry: Entry, data: Bytes)
    requires entry.compression == 0 || entry.compression == 8
    ensures UnzipEntry(p, bytes, entry) == Ok(data) <==>
              && Present(bytes, entry)
              && var start := LocalEnd(bytes, entry.localOffset);
              && var raw := bytes[start..start + entry.compressedSize];
              && (if entry.compression == 0 then data == raw else p.inflate(raw) == Some(data))
              && |data| == entry.uncompressedSize && Crc32.Crc(Octets(data)) as int == entry.crc
  {
    hide *;
    UnzipPresent(p, bytes, entry);
    if Present(bytes, entry) {
      RangePresent(bytes, entry);
      var start := LocalEnd(bytes, entry.localOffset);
      var raw := bytes[start..start + entry.compressedSize];
      CheckedIff(raw, data, entry);
      if entry.compression != 0 && p.inflate(raw).Some? {
        CheckedIff(p.inflate(raw).value, data, entry);
      }
    }
  }

  lemma RangePresent(bytes: Bytes, entry: Entry)
    requires Present(bytes, entry)
    ensures entry.localOffset + 30 <= |bytes| && LocalEnd(bytes, entry.localOffset) + entry.compressedSize <= |bytes|
  {
  }

  lemma UnzipPresent(p: Platform, bytes: Bytes, entry: Entry)
    ensures !Present(bytes, entry) ==> UnzipEntry(p, bytes, entry).Err?
    ensures Present(bytes, entry) ==>
              var start := LocalEnd(bytes, entry.localOffset);
              var raw := bytes[start..start + entry.compressedSize];
              UnzipEntry(p, bytes, entry) ==
                if entry.compression == 0 then CheckedData(raw, entry)
                else if p.inflate(raw).Some? then CheckedData(p.inflate(raw).value, entry)
                else Err(InflateFailed)
  {
    hide ReadU16, ReadU32, LocalMark, LocalEnd, CheckedData, Present;
    PresentIff(bytes, entry);
  }

  lemma PresentIff(bytes: Bytes, entry: Entry)
    ensures Present(bytes, entry) <==> Unpackable(bytes, entry)
    ensures entry.localOffset + 30 <= |bytes| ==> LocalEnd(bytes, entry.localOffset) == DataStart(bytes, entry)
  {
    if entry.localOffset + 30 <= |bytes| {
      LocalMarkIff(bytes, entry.localOffset);
      hide ReadU32, LocalMark;
    }
  }

  lemma CheckedIff(raw: Bytes, data: Bytes, entry: Entry)
    ensures CheckedData(raw, entry) == Ok(data)
       <==> raw == data && |data| == entry.uncompressedSize && Crc32.Crc(Octets(data)) as int == entry.crc
  {
    hide Octets, Crc32.Crc;
  }

  /** Unpacked data that differs from the stored bytes only within four consecutive bytes is rejected. */
  lemma CorruptionRejected(original: Bytes, data: Bytes, entry: Entry, window: nat)
    requires CheckedData(original, entry).Ok?
    requires |data| == |original| && data != original && window <= |data|
    requires forall i :: 0 <= i < |data| && data[i] != original[i] ==> window <= i < window + 4
    ensures CheckedData(data, entry) == Err(IntegrityFailure)
  {
    forall i | 0 <= i < |data|
      ensures Octets(data)[i] == Octets(original)[i] <==> data[i] == original[i]
    {
      if Octet(data[i]) == Octet(original[i]) {
        OctetInjective(data[i], original[i]);
      }
    }
    var i :| 0 <= i < |data| && data[i] != original[i];
    assert Octets(data)[i] != Octets(original)[i];
    Crc32.BurstDetected(Octets(original), Octets(data), window);
    ChecksumsDiffer(Crc32.Crc(Octets(original)), Crc32.Crc(Octets(data)));
  }

  /** Where the data of an entry lies in the archive. */
  function DataStart(bytes: Bytes, entry: Entry): nat
    requires entry.localOffset + 30 <= |bytes|
  {
    entry.localOffset + 30 + ReadU16(bytes, entry.localOffset + 26) + ReadU16(bytes, entry.localOffset + 28)
  }

  /** Two archives of one length that differ, and only within four consecutive bytes of an entry's data. */
  ghost predicate DamagedWithin(bytes: Bytes, damaged: Bytes, entry: Entry, window: nat)
    requires entry.localOffset + 30 <= |bytes|
  {
    && |damaged| == |bytes| && damaged != bytes
    && DataStart(bytes, entry) <= window && window <= DataStart(bytes, entry) + entry.compressedSize
    && forall i :: 0 <= i < |bytes| && damaged[i] != bytes[i] ==>
         window <= i < window + 4 && i < DataStart(bytes, entry) + entry.compressedSize
  }

  /** A stored member that can be unpacked cannot be once up to four consecutive bytes of its data are changed. */
  lemma DamageRejected(p: Platform, bytes: Bytes, damaged: Bytes, entry: Entry, window: nat)
    requires entry.compression == 0 && UnzipEntry(p, bytes, entry).Ok?
    requires DamagedWithin(bytes, damaged, entry, window)
    ensures UnzipEntry(p, damaged, entry) == Err(IntegrityFailure)
  {
    hide UnzipEntry, CheckedData, ReadU16, ReadU32;
    OkIsUnpackable(p, bytes, entry);
    HeaderUntouched(bytes, damaged, entry, window);
    var start := DataStart(bytes, entry);
    var end := start + entry.compressedSize;
    assert start <= window <= end <= |bytes|;
    StoredUnzips(p, bytes, entry);
    StoredUnzips(p, damaged, entry);
    DataDamaged(bytes, damaged, entry, start, end, window);
  }

  lemma DataDamaged(bytes: Bytes, damaged: Bytes, entry: Entry, start: nat, end: nat, window: nat)
    requires |damaged| == |bytes| && damaged != bytes && start <= window <= end <= |bytes|
    requires forall i :: 0 <= i < |bytes| && damaged[i] != bytes[i] ==> window <= i < window + 4 && i < end
    requires CheckedData(bytes[start..end], entry).Ok?
    ensures CheckedData(damaged[start..end], entry) == Err(IntegrityFailure)
  {
    hide CheckedData;
    SliceDamaged(bytes, damaged, start, end, window);
    CorruptionRejected(bytes[start..end], damaged[start..end], entry, window - start);
  }

  lemma OkIsUnpackable(p: Platform, bytes: Bytes, entry: Entry)
    requires UnzipEntry(p, bytes, entry).Ok?
    ensures Unpackable(bytes, entry)
  {
    hide CheckedData;
  }

  lemma SliceDamaged(bytes: Bytes, damaged: Bytes, start: nat, end: nat, window: nat)
    requires |damaged| == |bytes| && damaged != bytes && start <= end <= |bytes| && start <= window
    requires forall i :: 0 <= i < |bytes| && damaged[i] != bytes[i] ==> window <= i < window + 4 && i < end
    ensures var original, data := bytes[start..end], damaged[start..end];
            && data != original
            && forall i :: 0 <= i < |data| && data[i] != original[i] ==> window - start <= i < window - start + 4
  {
    var original, data := bytes[start..end], damaged[start..end];
    var i :| 0 <= i < |bytes| && damaged[i] != bytes[i];
    assert data[i - start] != original[i - start];
  }

  /** The local header is there and the data lies inside the archive. */
  predicate Unpackable(bytes: Bytes, entry: Entry) {
    && entry.localOffset + 30 <= |bytes| && ReadU32(bytes, entry.localOffset) == LOCAL_SIGNATURE
    && DataStart(bytes, entry) + entry.compressedSize <= |bytes|
  }

  lemma StoredUnzips(p: Platform, bytes: Bytes, entry: Entry)
    requires entry.compression == 0 && Unpackable(bytes, entry)
    ensures var start := DataStart(bytes, entry);
            UnzipEntry(p, bytes, entry) == CheckedData(bytes[start..start + entry.compressedSize], entry)
  {
    hide CheckedData;
  }

  lemma HeaderUntouched(bytes: Bytes, damaged: Bytes, entry: Entry, window: nat)
    requires entry.localOffset + 30 <= |bytes| && DamagedWithin(bytes, damaged, entry, window)
    ensures ReadU32(damaged, entry.localOffset) == ReadU32(bytes, entry.localOffset)
    ensures DataStart(damaged, entry) == DataStart(bytes, entry)
  {
    var o := entry.localOffset;
    var start := DataStart(bytes, entry);
    assert start >= o + 30;
    assert forall i :: 0 <= i < o + 30 ==> damaged[i] == bytes[i];
  }

  lemma ChecksumsDiffer(x: bv32, y: bv32)
    requires x != y
    ensures x as int != y as int
  {
    assert (x as int) as bv32 == x && (y as int) as bv32 == y;
  }

  // ---------------------------------------------------------- the archive format

  /** A member, stored or deflated to `packed`, and the header fields a writer may choose freely. */
  datatype Member = Member(
    rawName: Bytes, data: Bytes, compression: nat, packed: Bytes, versionMadeBy: nat, versionNeeded: nat, flags: nat, time: nat, date: nat,
    internal: nat, attributes: nat, localExtra: Bytes, centralExtra: Bytes, comment: Bytes)

  ghost predicate U16(n: nat) { n < 0x1_0000 }

  ghost predicate WellFormedMember(m: Member) {
    && U16(|m.rawName|) && U16(|m.localExtra|) && U16(|m.centralExtra|) && U16(|m.comment|)
    && U16(m.versionMadeBy) && U16(m.versionNeeded) && U16(m.flags) && U16(m.time) && U16(m.date) && U16(m.internal)
    && m.attributes < 0x1_0000_0000 && |m.data| < ALL_ONES && |m.packed| < ALL_ONES
    && m.compression in {0, 8} && (m.compression == 0 ==> m.packed == m.data)
    && m.flags % 2 == 0
    && !IsSymbolicLink(m.versionMadeBy, m.attributes)
  }

  function Low(n: nat): nat { n % 0x1_0000 }

  function High(n: nat): nat { n / 0x1_0000 }

  /** Header fields are a run of little-endian 16-bit words. */
  function Encode(words: seq<nat>): (bytes: Bytes)
    ensures |bytes| == 2 * |words|
  {
    seq(2 * |words|, i requires 0 <= i < 2 * |words| =>
      if i % 2 == 0 then (words[i / 2] % 0x100) as byte else (words[i / 2] / 0x100 % 0x100) as byte)
  }

  /** Section 4.3.7. */
  function LocalWords(m: Member, crc: nat): seq<nat> {
    var size, packed := |m.data|, |m.packed|;
    [0x4b50, 0x0403, m.versionNeeded, m.flags, m.compression, m.time, m.date, Low(crc), High(crc),
     Low(packed), High(packed), Low(size), High(size), |m.rawName|, |m.localExtra|]
  }

  /** Section 4.3.12. */
  function CentralWords(m: Member, crc: nat, localOffset: nat): seq<nat> {
    var size, packed := |m.data|, |m.packed|;
    [0x4b50, 0x0201, m.versionMadeBy, m.versionNeeded, m.flags, m.compression, m.time, m.date, Low(crc), High(crc),
     Low(packed), High(packed), Low(size), High(size), |m.rawName|, |m.centralExtra|, |m.comment|, 0, m.internal,
     Low(m.attributes), High(m.attributes), Low(localOffset), High(localOffset)]
  }

  /** Section 4.3.16, with no comment. */
  function EndWords(count: nat, size: nat, offset: nat): seq<nat> {
    [0x4b50, 0x0605, 0, 0, count, count, Low(size), High(size), Low(offset), High(offset), 0]
  }

  lemma ChecksumFits(data: Bytes)
    ensures Checksum(data) < 0x1_0000_0000
  {
  }

  predicate AllU16(words: seq<nat>) {
    forall i :: 0 <= i < |words| ==> words[i] < 0x1_0000
  }

  function LocalRecord(m: Member): Bytes {
    Encode(LocalWords(m, Checksum(m.data))) + m.rawName + m.localExtra + m.packed
  }

  function CentralRecord(m: Member, localOffset: nat): Bytes {
    Encode(CentralWords(m, Checksum(m.data), localOffset)) + m.rawName + m.centralExtra + m.comment
  }

  /** The local headers and data, in order. */
  function LocalPart(members: seq<Member>): Bytes {
    if members == [] then []
    else LocalPart(members[..|members| - 1]) + LocalRecord(members[|members| - 1])
  }

  function LocalOffset(members: seq<Member>, k: nat): nat
    requires k <= |members|
  {
    |LocalPart(members[..k])|
  }

  /** The central directory from member `k` on. */
  function CentralFrom(members: seq<Member>, k: nat): Bytes
    requires k <= |members|
    decreases |members| - k
  {
    if k == |members| then []
    else CentralRecord(members[k], LocalOffset(members, k)) + CentralFrom(members, k + 1)
  }

  function EndRecord(members: seq<Member>): Bytes {
    Encode(EndWords(|members|, |CentralFrom(members, 0)|, |LocalPart(members)|))
  }

  /** A single-disk, comment-free archive of stored and deflated members. */
  function Archive(members: seq<Member>): Bytes {
    LocalPart(members) + CentralFrom(members, 0) + EndRecord(members)
  }

  ghost function NameOf(p: Platform, m: Member): Result<string> {
    NormalizeEntryName(p.decode(m.flags / 0x800 % 2 == 1, m.rawName))
  }

  /** The bytes the local part takes: 30 per member and its variable fields. */
  function LocalSize(members: seq<Member>): nat {
    if members == [] then 0
    else
      var m := members[|members| - 1];
      LocalSize(members[..|members| - 1]) + 30 + |m.rawName| + |m.localExtra| + |m.packed|
  }

  /** The bytes the central directory takes: 46 per member and its variable fields. */
  function CentralSize(members: seq<Member>): nat {
    if members == [] then 0
    else
      var m := members[0];
      46 + |m.rawName| + |m.centralExtra| + |m.comment| + CentralSize(members[1..])
  }

  lemma {:induction false} LocalPartSize(members: seq<Member>)
    ensures |LocalPart(members)| == LocalSize(members)
  {
    hide Checksum;
    if members != [] {
      LocalPartSize(members[..|members| - 1]);
    }
  }

  lemma {:induction false} CentralPartSize(members: seq<Member>, k: nat)
    requires k <= |members|
    ensures |CentralFrom(members, k)| == CentralSize(members[k..])
    decreases |members| - k
  {
    hide Checksum, LocalOffset;
    if k < |members| {
      CentralPartSize(members, k + 1);
      assert members[k..][1..] == members[k + 1..];
    }
  }

  lemma SizesFit(members: seq<Member>)
    requires LocalSize(members) < ALL_ONES && CentralSize(members) < ALL_ONES
    ensures |LocalPart(members)| < ALL_ONES && |CentralFrom(members, 0)| < ALL_ONES
  {
    hide LocalPart, CentralFrom, LocalSize, CentralSize;
    LocalPartSize(members);
    CentralPartSize(members, 0);
    assert members[0..] == members;
  }

  /** The reader's DEFLATE undoes the writer's. */
  ghost predicate Inflates(p: Platform, m: Member) {
    m.compression == 8 ==> p.inflate(m.packed) == Some(m.data)
  }

  /** What a writer must respect: field widths, no ZIP64 sizes, acceptable and distinct names, a DEFLATE the reader undoes. */
  ghost predicate Writable(p: Platform, members: seq<Member>, names: seq<string>) {
    && |members| == |names| < 0xffff
    && LocalSize(members) < ALL_ONES && CentralSize(members) < ALL_ONES
    && (forall k {:trigger WellFormedMember(members[k])} :: 0 <= k < |members| ==> WellFormedMember(members[k]))
    && (forall k {:trigger Inflates(p, members[k])} :: 0 <= k < |members| ==> Inflates(p, members[k]))
    && (forall k {:trigger names[k]} :: 0 <= k < |names| ==> NameOf(p, members[k]) == Ok(names[k]))
    && (forall i, j :: 0 <= i < j < |names| ==> names[i] != names[j])
  }

  ghost function WrittenEntry(members: seq<Member>, names: seq<string>, k: nat): Entry
    requires k < |members| == |names|
  {
    var m := members[k];
    Entry(names[k], EndsWithSlash(names[k]), m.compression, Checksum(m.data), |m.packed|, |m.data|, LocalOffset(members, k), m.date, m.time)
  }

  ghost function WrittenEntries(members: seq<Member>, names: seq<string>, k: nat): seq<Entry>
    requires k <= |members| == |names|
    decreases |members| - k
  {
    if k == |members| then [] else [WrittenEntry(members, names, k)] + WrittenEntries(members, names, k + 1)
  }

  lemma HalvesFit(n: nat)
    requires n < 0x1_0000_0000
    ensures Low(n) < 0x1_0000 && High(n) < 0x1_0000
  {
  }

  lemma WordsFit(m: Member, crc: nat, localOffset: nat)
    requires WellFormedMember(m) && localOffset < 0x1_0000_0000 && crc < 0x1_0000_0000
    ensures AllU16(LocalWords(m, crc)) && AllU16(CentralWords(m, crc, localOffset))
  {
    hide Low, High, IsSymbolicLink;
    HalvesFit(crc);
    HalvesFit(|m.data|);
    HalvesFit(|m.packed|);
    HalvesFit(m.attributes);
    HalvesFit(localOffset);
  }

  /** `bytes` holds `part` at `at`. */
  ghost predicate HoldsAt(bytes: Bytes, at: nat, part: Bytes) {
    at + |part| <= |bytes| && bytes[at..at + |part|] == part
  }

  lemma HoldsPart(bytes: Bytes, at: nat, x: Bytes, y: Bytes)
    requires HoldsAt(bytes, at, x + y)
    ensures HoldsAt(bytes, at, x) && HoldsAt(bytes, at + |x|, y)
  {
    assert bytes[at..at + |x|] == bytes[at..at + |x + y|][..|x|];
    assert bytes[at + |x|..at + |x + y|] == bytes[at..at + |x + y|][|x|..];
  }

  /** Reading back any field of an encoded header inside a larger array. */
  lemma ReadWord(bytes: Bytes, at: nat, words: seq<nat>, i: nat)
    requires AllU16(words) && i < |words| && HoldsAt(bytes, at, Encode(words))
    ensures ReadU16(bytes, at + 2 * i) == words[i]
  {
    var h := Encode(words);
    assert bytes[at + 2 * i] == bytes[at..at + |h|][2 * i] == h[2 * i];
    assert bytes[at + 2 * i + 1] == bytes[at..at + |h|][2 * i + 1] == h[2 * i + 1];
  }

  lemma ReadDoubleWord(bytes: Bytes, at: nat, words: seq<nat>, i: nat, n: nat)
    requires AllU16(words) && i + 1 < |words| && HoldsAt(bytes, at, Encode(words))
    requires words[i] == Low(n) && words[i + 1] == High(n)
    ensures ReadU32(bytes, at + 2 * i) == n
  {
    ReadWord(bytes, at, words, i);
    ReadWord(bytes, at, words, i + 1);
  }

  /** The parser reads a written central record back and steps over it exactly. */
  lemma CentralRecordParses(p: Platform, bytes: Bytes, at: nat, m: Member, localOffset: nat, seen: set<string>)
    requires WellFormedMember(m) && localOffset < ALL_ONES
    requires HoldsAt(bytes, at, CentralRecord(m, localOffset))
    requires NameOf(p, m).Ok? && NameOf(p, m).value !in seen
    ensures at + 46 <= |bytes| && HeaderEnd(bytes, at) == at + |CentralRecord(m, localOffset)|
    ensures ParseHeader(p, bytes, at, seen) ==
            Ok(Entry(NameOf(p, m).value, EndsWithSlash(NameOf(p, m).value), m.compression, Checksum(m.data),
                     |m.packed|, |m.data|, localOffset, m.date, m.time))
  {
    hide ReadU16, ReadU32, Encode, Checksum, NormalizeEntryName, Low, High, IsSymbolicLink;
    ChecksumFits(m.data);
    var crc := Checksum(m.data);
    var words := CentralWords(m, crc, localOffset);
    WordsFit(m, crc, localOffset);
    HoldsPart(bytes, at, Encode(words) + m.rawName + m.centralExtra, m.comment);
    HoldsPart(bytes, at, Encode(words) + m.rawName, m.centralExtra);
    HoldsPart(bytes, at, Encode(words), m.rawName);
    ReadDoubleWord(bytes, at, words, 0, CENTRAL_SIGNATURE) by {
      SignatureHalves();
    }
    ReadWord(bytes, at, words, 2);
    ReadWord(bytes, at, words, 4);
    ReadWord(bytes, at, words, 5);
    ReadWord(bytes, at, words, 6);
    ReadWord(bytes, at, words, 7);
    ReadDoubleWord(bytes, at, words, 8, crc);
    ReadDoubleWord(bytes, at, words, 10, |m.packed|);
    ReadDoubleWord(bytes, at, words, 12, |m.data|);
    ReadWord(bytes, at, words, 14);
    ReadWord(bytes, at, words, 15);
    ReadWord(bytes, at, words, 16);
    ReadWord(bytes, at, words, 17);
    ReadDoubleWord(bytes, at, words, 19, m.attributes);
    ReadDoubleWord(bytes, at, words, 21, localOffset);
  }

  lemma SignatureHalves()
    ensures Low(CENTRAL_SIGNATURE) == 0x4b50 && High(CENTRAL_SIGNATURE) == 0x0201
    ensures Low(LOCAL_SIGNATURE) == 0x4b50 && High(LOCAL_SIGNATURE) == 0x0403
    ensures Low(EOCD_SIGNATURE) == 0x4b50 && High(EOCD_SIGNATURE) == 0x0605
  {
  }

  /** Unpacking a written member gives its bytes back. */
  lemma LocalRecordUnzips(p: Platform, bytes: Bytes, m: Member, entry: Entry)
    requires WellFormedMember(m) && HoldsAt(bytes, entry.localOffset, LocalRecord(m))
    requires entry.compression == m.compression && entry.crc == Checksum(m.data) && Inflates(p, m)
    requires entry.compressedSize == |m.packed| && entry.uncompressedSize == |m.data|
    ensures UnzipEntry(p, bytes, entry) == Ok(m.data)
  {
    hide ReadU16, ReadU32, Encode, Checksum, Low, High, IsSymbolicLink;
    ChecksumFits(m.data);
    var crc, at := Checksum(m.data), entry.localOffset;
    var words := LocalWords(m, crc);
    WordsFit(m, crc, 0);
    HoldsPart(bytes, at, Encode(words) + m.rawName + m.localExtra, m.packed);
    HoldsPart(bytes, at, Encode(words) + m.rawName, m.localExtra);
    HoldsPart(bytes, at, Encode(words), m.rawName);
    ReadDoubleWord(bytes, at, words, 0, LOCAL_SIGNATURE) by {
      SignatureHalves();
    }
    ReadWord(bytes, at, words, 13);
    ReadWord(bytes, at, words, 14);
  }

  /** Every local record sits at the offset its central record names. */
  lemma {:induction false} LocalRecordHeld(members: seq<Member>, n: nat, k: nat)
    requires k < n <= |members|
    ensures HoldsAt(LocalPart(members[..n]), LocalOffset(members, k), LocalRecord(members[k]))
    decreases n
  {
    hide LocalRecord;
    var all, init := LocalPart(members[..n]), LocalPart(members[..n - 1]);
    var last := LocalRecord(members[n - 1]);
    assert members[..n][..n - 1] == members[..n - 1];
    assert all == init + last;
    if k < n - 1 {
      LocalRecordHeld(members, n - 1, k);
      var at, part := LocalOffset(members, k), LocalRecord(members[k]);
      assert all[at..at + |part|] == init[at..at + |part|];
    } else {
      assert all[|init|..|init| + |last|] == last;
    }
  }

  ghost predicate NamesUnseen(names: seq<string>, k: nat, seen: set<string>) {
    forall i :: k <= i < |names| ==> names[i] !in seen
  }

  lemma NamesStayUnseen(names: seq<string>, k: nat, seen: set<string>)
    requires k < |names| && NamesUnseen(names, k, seen)
    requires forall i, j :: 0 <= i < j < |names| ==> names[i] != names[j]
    ensures NamesUnseen(names, k + 1, seen + {names[k]})
  {
  }

  lemma ParseHeadersStep(p: Platform, bytes: Bytes, at: nat, count: nat, seen: set<string>, entry: Entry, rest: seq<Entry>, end: nat)
    requires at + 46 <= |bytes| && ParseHeader(p, bytes, at, seen) == Ok(entry)
    requires ParseHeaders(p, bytes, HeaderEnd(bytes, at), count, seen + {entry.name}) == Ok((rest, end))
    ensures ParseHeaders(p, bytes, at, count + 1, seen) == Ok(([entry] + rest, end))
  {
    hide ParseHeader, HeaderEnd;
  }

  lemma CentralStep(members: seq<Member>, k: nat)
    requires k < |members|
    ensures CentralFrom(members, k) == CentralRecord(members[k], LocalOffset(members, k)) + CentralFrom(members, k + 1)
  {
  }

  /** What reading member `k` needs and gives, one record at a time. */
  lemma RecordStep(p: Platform, members: seq<Member>, names: seq<string>, bytes: Bytes, at: nat, k: nat, seen: set<string>)
    requires Writable(p, members, names) && k < |members|
    requires HoldsAt(bytes, at, CentralFrom(members, k)) && NamesUnseen(names, k, seen)
    ensures var entry, next := WrittenEntry(members, names, k), at + |CentralRecord(members[k], LocalOffset(members, k))|;
            && at + 46 <= |bytes| && HeaderEnd(bytes, at) == next
            && ParseHeader(p, bytes, at, seen) == Ok(entry)
            && HoldsAt(bytes, next, CentralFrom(members, k + 1))
            && next + |CentralFrom(members, k + 1)| == at + |CentralFrom(members, k)|
            && NamesUnseen(names, k + 1, seen + {entry.name})
  {
    hide HoldsAt, ParseHeader, CentralRecord, LocalOffset, HeaderEnd, WellFormedMember, NormalizeEntryName,
         EndsWithSlash, Checksum, LocalPart, CentralFrom, NameOf;
    CentralStep(members, k);
    var m, offset := members[k], LocalOffset(members, k);
    HoldsPart(bytes, at, CentralRecord(m, offset), CentralFrom(members, k + 1));
    LocalOffsetBound(members, k);
    SizesFit(members);
    assert NameOf(p, m) == Ok(names[k]);
    CentralRecordParses(p, bytes, at, m, offset, seen);
    NamesStayUnseen(names, k, seen);
  }

  lemma {:induction false} CentralParses(p: Platform, members: seq<Member>, names: seq<string>, bytes: Bytes, at: nat, k: nat, seen: set<string>)
    requires Writable(p, members, names) && k <= |members|
    requires HoldsAt(bytes, at, CentralFrom(members, k))
    requires NamesUnseen(names, k, seen)
    ensures ParseHeaders(p, bytes, at, |members| - k, seen) ==
            Ok((WrittenEntries(members, names, k), at + |CentralFrom(members, k)|))
    decreases |members| - k
  {
    hide HoldsAt, ParseHeader, NameOf, LocalOffset, HeaderEnd, WellFormedMember, ParseHeaders, NamesUnseen,
         CentralRecord, WrittenEntry, LocalPart;
    if k < |members| {
      var entry, next := WrittenEntry(members, names, k), at + |CentralRecord(members[k], LocalOffset(members, k))|;
      RecordStep(p, members, names, bytes, at, k, seen);
      CentralParses(p, members, names, bytes, next, k + 1, seen + {entry.name});
      ParseHeadersStep(p, bytes, at, |members| - k - 1, seen, entry,
                       WrittenEntries(members, names, k + 1), next + |CentralFrom(members, k + 1)|);
    } else {
      ParseNoHeaders(p, bytes, at, seen);
    }
  }

  lemma ParseNoHeaders(p: Platform, bytes: Bytes, at: nat, seen: set<string>)
    ensures ParseHeaders(p, bytes, at, 0, seen) == Ok(([], at))
  {
  }

  lemma {:induction false} LocalOffsetBound(members: seq<Member>, k: nat)
    requires k <= |members|
    ensures LocalOffset(members, k) <= |LocalPart(members)|
    decreases |members| - k
  {
    hide LocalRecord;
    if k == |members| {
      assert members[..k] == members;
    } else {
      LocalOffsetBound(members, k + 1);
      assert members[..k + 1][..k] == members[..k];
    }
  }

  /** The end record is found at once and passes every check. */
  lemma EndRecordFound(p: Platform, members: seq<Member>, names: seq<string>)
    requires Writable(p, members, names)
    ensures var bytes := Archive(members);
            var eocd := |bytes| - 22;
            && eocd >= 0
            && FindFrom(bytes, eocd, Minimum(bytes)) == Some(eocd) && CheckEndRecord(bytes, eocd).None?
            && ReadU16(bytes, eocd + 10) == |members|
            && ReadU32(bytes, eocd + 12) == |CentralFrom(members, 0)|
            && ReadU32(bytes, eocd + 16) == |LocalPart(members)|
  {
    hide ReadU16, ReadU32, Encode, Low, High, LocalPart, CentralFrom, WellFormedMember;
    SizesFit(members);
    var bytes := Archive(members);
    var size, offset := |CentralFrom(members, 0)|, |LocalPart(members)|;
    var words := EndWords(|members|, size, offset);
    var eocd := |bytes| - 22;
    HalvesFit(size);
    HalvesFit(offset);
    assert AllU16(words);
    assert bytes[eocd..eocd + 22] == EndRecord(members);
    ReadDoubleWord(bytes, eocd, words, 0, EOCD_SIGNATURE) by {
      SignatureHalves();
    }
    ReadWord(bytes, eocd, words, 2);
    ReadWord(bytes, eocd, words, 3);
    ReadWord(bytes, eocd, words, 4);
    ReadWord(bytes, eocd, words, 5);
    ReadDoubleWord(bytes, eocd, words, 6, size);
    ReadDoubleWord(bytes, eocd, words, 8, offset);
    ReadWord(bytes, eocd, words, 10);
  }

  lemma {:induction false} WrittenEntryAt(members: seq<Member>, names: seq<string>, j: nat, k: nat)
    requires j <= k < |members| == |names|
    requires |WrittenEntries(members, names, j)| == |members| - j
    ensures WrittenEntries(members, names, j)[k - j] == WrittenEntry(members, names, k)
    decreases |members| - j
  {
    hide WrittenEntry;
    if j < k {
      WrittenEntryAt(members, names, j + 1, k);
    }
  }

  lemma MemberUnzips(p: Platform, members: seq<Member>, names: seq<string>, k: nat)
    requires Writable(p, members, names) && k < |members|
    ensures UnzipEntry(p, Archive(members), WrittenEntry(members, names, k)) == Ok(members[k].data)
  {
    hide LocalPart, CentralFrom, EndRecord, UnzipEntry, LocalRecord, NameOf, Checksum, EndsWithSlash, Inflates, WellFormedMember;
    assert WellFormedMember(members[k]) && Inflates(p, members[k]);
    var bytes, locals := Archive(members), LocalPart(members);
    LocalRecordHeld(members, |members|, k);
    assert members[..|members|] == members;
    var at, part := LocalOffset(members, k), LocalRecord(members[k]);
    assert bytes[at..at + |part|] == locals[at..at + |part|];
    LocalRecordUnzips(p, bytes, members[k], WrittenEntry(members, names, k));
  }

  lemma DirectoryParses(p: Platform, members: seq<Member>, names: seq<string>)
    requires Writable(p, members, names)
    ensures ParseDirectory(p, Archive(members)) == Ok(WrittenEntries(members, names, 0))
  {
    hide FindFrom, CheckEndRecord, ParseHeaders, LocalPart, CentralFrom, EndRecord, NameOf, WrittenEntries, ReadU16, ReadU32;
    var bytes, locals, central := Archive(members), LocalPart(members), CentralFrom(members, 0);
    EndRecordFound(p, members, names);
    assert bytes[|locals|..|locals| + |central|] == central;
    CentralParses(p, members, names, bytes, |locals|, 0, {});
  }

  /**
   Round trip: for every writable list of stored or deflated members, whose names the reader accepts
   as `names`, parsing the written archive gives exactly the entries written, and
   unpacking each gives its original bytes.
   */
  lemma RoundTrip(p: Platform, members: seq<Member>, names: seq<string>)
    requires Writable(p, members, names)
    ensures ParseDirectory(p, Archive(members)) == Ok(WrittenEntries(members, names, 0))
    ensures |WrittenEntries(members, names, 0)| == |members|
    ensures forall k :: 0 <= k < |members| ==>
              UnzipEntry(p, Archive(members), WrittenEntries(members, names, 0)[k]) == Ok(members[k].data)
  {
    hide ParseDirectory, Archive, UnzipEntry, NameOf, WrittenEntry, LocalPart, CentralFrom;
    DirectoryParses(p, members, names);
    WrittenCount(members, names, 0);
    forall k | 0 <= k < |members|
      ensures UnzipEntry(p, Archive(members), WrittenEntries(members, names, 0)[k]) == Ok(members[k].data)
    {
      WrittenEntryAt(members, names, 0, k);
      MemberUnzips(p, members, names, k);
    }
  }

  lemma {:induction false} WrittenCount(members: seq<Member>, names: seq<string>, j: nat)
    requires j <= |members| == |names|
    ensures |WrittenEntries(members, names, j)| == |members| - j
    decreases |members| - j
  {
    hide WrittenEntry;
    if j < |members| {
      WrittenCount(members, names, j + 1);
    }
  }
}
