/**
 pkg/playbook: discovery of playbooks in a directory and the loader's index over them.
 The directory is a value; SHA-256 is a function parameter of which only the digest length is known.
 */
module Playbooks {
  import opened Basics
  import opened Types
  import opened Manifests

  type Byte = b: nat | b < 256

  type Digest = d: seq<Byte> | |d| == 32 witness seq(32, _ => 0)

  // ---------------------------------------------------------------- identifiers

  /** The lower-case digits of encoding/hex. */
  function HexDigit(n: nat): (c: char)
    requires n < 16
    ensures c != '-'
  {
    if n < 10 then ('0' as int + n) as char else ('a' as int + (n - 10)) as char
  }

  function HexEncode(bytes: seq<Byte>): (s: string)
    ensures |s| == 2 * |bytes|
    ensures '-' !in s
  {
    if bytes == [] then ""
    else [HexDigit(bytes[0] / 16), HexDigit(bytes[0] % 16)] + HexEncode(bytes[1..])
  }

  lemma {:induction false} HexEncodeInjective(a: seq<Byte>, b: seq<Byte>)
    requires HexEncode(a) == HexEncode(b)
    ensures a == b
  {
    var x, y := HexEncode(a), HexEncode(b);
    if a != [] {
      assert x[2..] == HexEncode(a[1..]) && y[2..] == HexEncode(b[1..]);
      HexEncodeInjective(a[1..], b[1..]);
      assert x[0] == y[0] && x[1] == y[1];
      assert a[0] / 16 == b[0] / 16 && a[0] % 16 == b[0] % 16;
      assert a == [a[0]] + a[1..] && b == [b[0]] + b[1..];
    }
  }

  function GenerateID(hash: string -> Digest, path: string): (id: string)
    ensures |id| == 16
    ensures '-' !in id
  {
    HexEncode(hash(path)[..8])
  }

  const DIGITS := "0123456789abcdef"

  lemma {:induction false} HexEncodeDigits(bytes: seq<Byte>, i: nat)
    requires i < |bytes|
    ensures HexEncode(bytes)[2 * i] == DIGITS[bytes[i] / 16] && HexEncode(bytes)[2 * i + 1] == DIGITS[bytes[i] % 16]
  {
    if i > 0 {
      HexEncodeDigits(bytes[1..], i - 1);
    }
  }

  /** An ID spells the first eight digest bytes, two digits each, the high one first. */
  lemma IDSpellsDigest(hash: string -> Digest, path: string)
    ensures |GenerateID(hash, path)| == 16
    ensures forall i :: 0 <= i < 8 ==>
      && GenerateID(hash, path)[2 * i] == "0123456789abcdef"[hash(path)[i] / 16]
      && GenerateID(hash, path)[2 * i + 1] == "0123456789abcdef"[hash(path)[i] % 16]
  {
    forall i: nat | i < 8
      ensures GenerateID(hash, path)[2 * i] == DIGITS[hash(path)[i] / 16]
      ensures GenerateID(hash, path)[2 * i + 1] == DIGITS[hash(path)[i] % 16]
    {
      HexEncodeDigits(hash(path)[..8], i);
    }
  }

  /** Two directories share an ID exactly when the first eight bytes of their digests agree. */
  lemma SameIDIffSamePrefix(hash: string -> Digest, p: string, q: string)
    ensures GenerateID(hash, p) == GenerateID(hash, q) <==> hash(p)[..8] == hash(q)[..8]
  {
    if GenerateID(hash, p) == GenerateID(hash, q) {
      HexEncodeInjective(hash(p)[..8], hash(q)[..8]);
    }
  }

  // ---------------------------------------------------------------- discovery

  type FileName = s: string | s != "" witness "x"

  /** A directory entry; `playbookFile` is the modification time of its playbook.yml, if there is one. */
  datatype Entry = Entry(name: FileName, isDir: bool, playbookFile: Option<int>, manifestFile: ManifestFile)

  predicate ShouldSkipEntry(e: Entry) {
    !e.isDir || e.name[0] == '.'
  }

  function PlaybookPath(baseDir: string, dirName: string): string {
    (if baseDir != "" && baseDir[|baseDir| - 1] == '/' then baseDir else baseDir + "/") + dirName + "/playbook.yml"
  }

  /** A rejected or missing manifest leaves the playbook without one. */
  function LoadManifest(e: Entry): Option<Manifest> {
    match ParseFile(e.manifestFile)
    case Ok(m) => Some(m)
    case Err(_) => None
  }

  function InspectDirEntry(hash: string -> Digest, baseDir: string, e: Entry): Option<Playbook> {
    if ShouldSkipEntry(e) || e.playbookFile.None? then None
    else
      Some(Playbook(
             id := GenerateID(hash, e.name),
             name := e.name,
             path := e.name,
             fullPath := PlaybookPath(baseDir, e.name),
             modTime := e.playbookFile.value,
             manifest := LoadManifest(e)))
  }

  /** The playbooks found in `entries`, in directory order. */
  function Discovered(hash: string -> Digest, baseDir: string, entries: seq<Entry>): (list: seq<Playbook>)
    ensures forall pb :: pb in list ==> pb.id == GenerateID(hash, pb.name)
    ensures forall pb :: pb in list ==> exists e :: e in entries && e.name == pb.name
    ensures forall pb :: pb in list && pb.manifest.Some? ==> Dispatchable(pb.manifest.value)
  {
    if entries == [] then []
    else
      var pb := InspectDirEntry(hash, baseDir, entries[|entries| - 1]);
      Discovered(hash, baseDir, entries[..|entries| - 1]) + (if pb.Some? then [pb.value] else [])
  }

  /** A directory that is not hidden and holds a playbook.yml. */
  predicate IsPlaybookDir(e: Entry) {
    e.isDir && e.name[0] != '.' && e.playbookFile.Some?
  }

  /**
   Exactly the playbook directories are listed, each under its name; its manifest is the one on disk when that is
   well-formed and dispatchable, and is absent otherwise.
   */
  lemma {:induction false} DiscoveredIff(hash: string -> Digest, baseDir: string, entries: seq<Entry>, pb: Playbook)
    ensures pb in Discovered(hash, baseDir, entries) <==>
      exists e :: e in entries && IsPlaybookDir(e) && DescribedBy(hash, baseDir, e, pb)
  {
    if entries != [] {
      var front, last := entries[..|entries| - 1], entries[|entries| - 1];
      DiscoveredIff(hash, baseDir, front, pb);
      DescriptionUnique(hash, baseDir, last, pb);
      assert forall e :: e in entries <==> e in front || e == last;
    }
  }

  predicate DescribedBy(hash: string -> Digest, baseDir: string, e: Entry, pb: Playbook)
    requires e.playbookFile.Some?
  {
    && pb.name == pb.path == e.name
    && pb.id == GenerateID(hash, e.name)
    && pb.fullPath == (if baseDir != "" && baseDir[|baseDir| - 1] == '/' then baseDir[..|baseDir| - 1] else baseDir)
                      + "/" + e.name + "/playbook.yml"
    && pb.modTime == e.playbookFile.value
    && (pb.manifest.Some? <==> e.manifestFile.Decoded? && Dispatchable(e.manifestFile.manifest))
    && (pb.manifest.Some? ==> pb.manifest.value == e.manifestFile.manifest)
  }

  lemma DescriptionUnique(hash: string -> Digest, baseDir: string, e: Entry, pb: Playbook)
    ensures InspectDirEntry(hash, baseDir, e) == Some(pb) <==> IsPlaybookDir(e) && DescribedBy(hash, baseDir, e, pb)
  {
    if baseDir != "" && baseDir[|baseDir| - 1] == '/' {
      assert baseDir == baseDir[..|baseDir| - 1] + "/";
    }
  }

  /** `f` lists, in increasing order, exactly the positions of the playbook directories, and `list` describes those. */
  ghost predicate ListsInOrder(hash: string -> Digest, baseDir: string, entries: seq<Entry>, list: seq<Playbook>, f: seq<nat>) {
    && |f| == |list|
    && (forall i, j :: 0 <= i < j < |f| ==> f[i] < f[j])
    && (forall p: nat :: p in f <==> p < |entries| && IsPlaybookDir(entries[p]))
    && (forall i :: 0 <= i < |f| ==>
          f[i] < |entries| && IsPlaybookDir(entries[f[i]]) && DescribedBy(hash, baseDir, entries[f[i]], list[i]))
  }

  lemma PositionsBounded(hash: string -> Digest, baseDir: string, entries: seq<Entry>, list: seq<Playbook>, f: seq<nat>)
    requires ListsInOrder(hash, baseDir, entries, list, f)
    ensures forall i :: 0 <= i < |f| ==> f[i] < |entries|
    ensures |entries| !in f
  {
  }

  lemma ListOneMore(hash: string -> Digest, baseDir: string, entries: seq<Entry>, e: Entry, list: seq<Playbook>, f: seq<nat>, pb: Playbook)
    requires ListsInOrder(hash, baseDir, entries, list, f) && IsPlaybookDir(e) && DescribedBy(hash, baseDir, e, pb)
    ensures ListsInOrder(hash, baseDir, entries + [e], list + [pb], f + [|entries|])
  {
    PositionsBounded(hash, baseDir, entries, list, f);
    var f', entries' := f + [|entries|], entries + [e];
    forall p: nat
      ensures p in f' <==> p < |entries'| && IsPlaybookDir(entries'[p])
    {
      assert p in f' <==> p in f || p == |entries|;
    }
  }

  lemma SkipOneMore(hash: string -> Digest, baseDir: string, entries: seq<Entry>, e: Entry, list: seq<Playbook>, f: seq<nat>)
    requires ListsInOrder(hash, baseDir, entries, list, f) && !IsPlaybookDir(e)
    ensures ListsInOrder(hash, baseDir, entries + [e], list, f)
  {
    PositionsBounded(hash, baseDir, entries, list, f);
  }

  /** Every playbook directory is listed once, in directory order. */
  lemma {:induction false} DiscoveredInOrder(hash: string -> Digest, baseDir: string, entries: seq<Entry>) returns (f: seq<nat>)
    ensures ListsInOrder(hash, baseDir, entries, Discovered(hash, baseDir, entries), f)
  {
    if entries == [] {
      f := [];
    } else {
      var front, e := entries[..|entries| - 1], entries[|entries| - 1];
      var listed := Discovered(hash, baseDir, front);
      f := DiscoveredInOrder(hash, baseDir, front);
      var pb := InspectDirEntry(hash, baseDir, e);
      assert entries == front + [e];
      if pb.Some? {
        DescriptionUnique(hash, baseDir, e, pb.value);
        ListOneMore(hash, baseDir, front, e, listed, f, pb.value);
        f := f + [|front|];
      } else {
        SkippedIff(hash, baseDir, e);
        SkipOneMore(hash, baseDir, front, e, listed, f);
        assert listed + [] == listed;
      }
    }
  }

  lemma SkippedIff(hash: string -> Digest, baseDir: string, e: Entry)
    ensures InspectDirEntry(hash, baseDir, e).None? <==> !IsPlaybookDir(e)
  {
  }

  // ---------------------------------------------------------------- the index

  /** The index a scan builds for the list it returns: a later playbook replaces an earlier one of the same ID. */
  function IndexOf(list: seq<Playbook>): map<string, Playbook> {
    if list == [] then map[]
    else
      var last := list[|list| - 1];
      IndexOf(list[..|list| - 1])[last.id := last]
  }

  /** `i` is the last position of `list` holding a playbook with this ID. */
  predicate LastWithID(list: seq<Playbook>, id: string, i: nat) {
    && i < |list|
    && list[i].id == id
    && forall j :: i < j < |list| ==> list[j].id != id
  }

  /**
   The index holds an ID exactly when the list does, with the last playbook of that ID; `i` is its position, or -1.
   */
  lemma {:induction false} IndexAgreesWithList(list: seq<Playbook>, id: string) returns (i: int)
    ensures -1 <= i < |list|
    ensures i == -1 ==> id !in IndexOf(list) && forall j :: 0 <= j < |list| ==> list[j].id != id
    ensures i >= 0 ==> LastWithID(list, id, i) && id in IndexOf(list) && IndexOf(list)[id] == list[i]
  {
    if list == [] {
      i := -1;
    } else {
      var n := |list| - 1;
      if list[n].id == id {
        i := n;
      } else {
        i := IndexAgreesWithList(list[..n], id);
        assert forall j :: 0 <= j < n ==> list[..n][j] == list[j];
      }
    }
  }

  /** Every entry sits under its own ID, which is the ID of its own name. */
  ghost predicate WellIndexed(hash: string -> Digest, index: map<string, Playbook>) {
    forall id :: id in index ==> index[id].id == id && id == GenerateID(hash, index[id].name)
  }

  lemma IndexWellFormed(hash: string -> Digest, list: seq<Playbook>)
    requires forall pb :: pb in list ==> pb.id == GenerateID(hash, pb.name)
    ensures WellIndexed(hash, IndexOf(list))
  {
    forall id | id in IndexOf(list)
      ensures IndexOf(list)[id].id == id && id == GenerateID(hash, IndexOf(list)[id].name)
    {
      var i := IndexAgreesWithList(list, id);
      assert list[i] in list;
    }
  }

  /** Lookup by name, said through the ID of the name: no iteration order is involved. */
  function FoundByName(hash: string -> Digest, index: map<string, Playbook>, name: string): Option<Playbook> {
    var id := GenerateID(hash, name);
    if id in index && index[id].name == name then Some(index[id]) else None
  }

  ghost predicate DistinctNames(list: seq<Playbook>) {
    forall i, j :: 0 <= i < j < |list| ==> list[i].name != list[j].name
  }

  ghost predicate DistinctIDs(list: seq<Playbook>) {
    forall i, j :: 0 <= i < j < |list| ==> list[i].id != list[j].id
  }

  /**
   Names are distinct because they are the entries of one directory. Then lookup by name finds every
   listed playbook exactly when no two of their IDs collide.
   */
  lemma EveryNameFoundIffNoCollision(hash: string -> Digest, list: seq<Playbook>)
    requires forall pb :: pb in list ==> pb.id == GenerateID(hash, pb.name)
    requires DistinctNames(list)
    ensures (forall pb :: pb in list ==> FoundByName(hash, IndexOf(list), pb.name) == Some(pb)) <==> DistinctIDs(list)
  {
    var index := IndexOf(list);
    if DistinctIDs(list) {
      forall pb | pb in list
        ensures FoundByName(hash, index, pb.name) == Some(pb)
      {
        var i :| 0 <= i < |list| && list[i] == pb;
        var k := IndexAgreesWithList(list, pb.id);
        assert k == i;
      }
    } else {
      var i, j :| 0 <= i < j < |list| && list[i].id == list[j].id;
      assert list[i] in list && list[j] in list;
      assert list[i].name != list[j].name;
      assert !(FoundByName(hash, index, list[i].name) == Some(list[i])
               && FoundByName(hash, index, list[j].name) == Some(list[j]));
    }
  }

  // ---------------------------------------------------------------- the loader

  /** What resolving and inspecting the base path gives. */
  datatype BasePath = Unresolved | Absent | NotADirectory | Directory(absolute: string)

  datatype BaseDirError = CannotResolve | DoesNotExist | NoDirectory

  function ValidateBaseDir(base: BasePath): Result<string, BaseDirError> {
    match base
    case Unresolved => Err(CannotResolve)
    case Absent => Err(DoesNotExist)
    case NotADirectory => Err(NoDirectory)
    case Directory(path) => Ok(path)
  }

  /** A loader comes into being exactly for a directory, with an empty index. */
  method NewLoader(hash: string -> Digest, base: BasePath) returns (r: Result<Loader, BaseDirError>)
    ensures r.Ok? <==> base.Directory?
    ensures r.Err? ==>
      r.error == match base case Unresolved => CannotResolve case Absent => DoesNotExist case _ => NoDirectory
    ensures r.Ok? ==>
      fresh(r.value) && r.value.hash == hash && r.value.baseDir == base.absolute && r.value.playbooks == map[]
  {
    var absPath := ValidateBaseDir(base);
    if absPath.Err? {
      return Err(absPath.error);
    }
    var loader := new Loader(hash, absPath.value);
    return Ok(loader);
  }

  datatype LoaderError = ReadDirFailed | NotFound | ReadPlaybookFailed

  class Loader {
    const baseDir: string
    const hash: string -> Digest
    var playbooks: map<string, Playbook>

    ghost predicate Valid()
      reads this
    {
      WellIndexed(hash, playbooks)
    }

    constructor (hash: string -> Digest, baseDir: string)
      ensures Valid() && playbooks == map[]
      ensures this.hash == hash && this.baseDir == baseDir
    {
      this.hash := hash;
      this.baseDir := baseDir;
      playbooks := map[];
    }

    /** The index is reset before the directory is read, so a failed scan leaves it empty. */
    method Scan(dir: Option<seq<Entry>>) returns (r: Result<seq<Playbook>, LoaderError>)
      modifies this`playbooks
      ensures Valid()
      ensures dir.None? ==> r == Err(ReadDirFailed) && playbooks == map[]
      ensures dir.Some? ==> r == Ok(Discovered(hash, baseDir, dir.value)) && playbooks == IndexOf(r.value)
      ensures dir.Some? ==> exists f :: ListsInOrder(hash, baseDir, dir.value, r.value, f)
    {
      playbooks := map[];
      if dir.None? {
        return Err(ReadDirFailed);
      }
      var entries := dir.value;
      var result: seq<Playbook> := [];
      for i := 0 to |entries|
        invariant result == Discovered(hash, baseDir, entries[..i])
        invariant playbooks == IndexOf(result)
      {
        assert entries[..i + 1][..i] == entries[..i];
        var found := InspectDirEntry(hash, baseDir, entries[i]);
        if found.Some? {
          var pb := found.value;
          playbooks := playbooks[pb.id := pb];
          assert (result + [pb])[..|result|] == result;
          result := result + [pb];
        }
      }
      assert entries[..|entries|] == entries;
      IndexWellFormed(hash, result);
      var _ := DiscoveredInOrder(hash, baseDir, entries);
      return Ok(result);
    }

    method Get(id: string) returns (r: Result<Playbook, LoaderError>)
      ensures r == if id in playbooks then Ok(playbooks[id]) else Err(NotFound)
    {
      if id !in playbooks {
        return Err(NotFound);
      }
      return Ok(playbooks[id]);
    }

    /** `disk` gives the content of a file, or nothing when it cannot be read. */
    method Load(id: string, disk: string -> Option<string>) returns (r: Result<string, LoaderError>)
      ensures id !in playbooks ==> r == Err(NotFound)
      ensures id in playbooks ==>
        r == match disk(playbooks[id].fullPath) case Some(content) => Ok(content) case None => Err(ReadPlaybookFailed)
    {
      var found := Get(id);
      if found.Err? {
        return Err(NotFound);
      }
      var content := disk(found.value.fullPath);
      if content.None? {
        return Err(ReadPlaybookFailed);
      }
      return Ok(content.value);
    }

    /** Visits the index in whatever order the map yields; the answer does not depend on it. */
    method GetByName(name: string) returns (r: Result<Playbook, LoaderError>)
      requires Valid()
      ensures r == match FoundByName(hash, playbooks, name) case Some(pb) => Ok(pb) case None => Err(NotFound)
      ensures r.Ok? ==> r.value.name == name && exists id :: id in playbooks && playbooks[id] == r.value
      ensures r.Err? ==> r.error.NotFound? && forall id :: id in playbooks ==> playbooks[id].name != name
    {
      var todo := playbooks.Keys;
      while todo != {}
        invariant todo <= playbooks.Keys
        invariant forall id :: id in playbooks && id !in todo ==> playbooks[id].name != name
        decreases |todo|
      {
        var id :| id in todo;
        if playbooks[id].name == name {
          return Ok(playbooks[id]);
        }
        todo := todo - {id};
      }
      return Err(NotFound);
    }
  }
}
