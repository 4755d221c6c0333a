/** The folder-mirroring loop of `bin/synmirror.py`: for every object URI of
    the input list, walk the segments of its directory under the root folder
    on Synapse, creating one folder per folder URI not seen before, and print
    the object URI with the id last assigned to `folder_id`. */
module SynMirror {
  import opened Wrappers
  import opened Strings

  /** The `concreteType` the script gives every folder it creates. */
  const FolderType: string := "org.sagebionetworks.repo.model.Folder"

  /** The entity dictionary `create_folder` hands to `syn.store`. */
  datatype Folder = Folder(name: string, concreteType: string, parentId: string)

  function DigitChar(d: nat): char
    requires d < 10
  {
    ('0' as int + d) as char
  }

  function Decimal(n: nat): (r: string)
    ensures |r| >= 1
    decreases n
  {
    if n < 10 then [DigitChar(n)] else Decimal(n / 10) + [DigitChar(n % 10)]
  }

  /** The id the catalog gives the `k`-th entity it stores. */
  function EntityId(k: nat): string {
    "syn" + Decimal(k)
  }

  /** Distinct positions in the catalog get distinct ids. */
  lemma EntityIdInjective(j: nat, k: nat)
    requires EntityId(j) == EntityId(k)
    ensures j == k
  {
    assert EntityId(j)[3..] == Decimal(j);
    assert EntityId(k)[3..] == Decimal(k);
    DecimalInjective(j, k);
  }

  lemma {:induction false} DecimalInjective(j: nat, k: nat)
    requires Decimal(j) == Decimal(k)
    ensures j == k
    decreases j
  {
    var a, b := Decimal(j), Decimal(k);
    DecimalOneDigit(j);
    DecimalOneDigit(k);
    if j >= 10 {
      assert DigitChar(j % 10) == a[|a| - 1] == b[|b| - 1] == DigitChar(k % 10);
      assert Decimal(j / 10) == a[..|a| - 1] == b[..|b| - 1] == Decimal(k / 10);
      DecimalInjective(j / 10, k / 10);
    } else {
      assert a[0] == b[0];
    }
  }

  lemma DecimalOneDigit(n: nat)
    ensures n < 10 <==> |Decimal(n)| == 1
  {
  }

  /** The remote catalog, reduced to what the loop sees of it: the folders
      stored so far, in order.  Storing one returns a new id. */
  class Synapse {
    var stored: seq<Folder>

    constructor ()
      ensures stored == []
    {
      stored := [];
    }

    /** `syn.store(entity).id` */
    method Store(entity: Folder) returns (id: string)
      modifies this
      ensures stored == old(stored) + [entity]
      ensures id == EntityId(|old(stored)|)
    {
      id := EntityId(|stored|);
      stored := stored + [entity];
    }
  }

  /** `create_folder(name, parent_id)`: store a folder called `name` under
      `parentId` and return the new id. */
  method CreateFolder(syn: Synapse, name: string, parentId: string) returns (id: string)
    modifies syn
    ensures syn.stored == old(syn.stored) + [Folder(name, FolderType, parentId)]
    ensures id == EntityId(|old(syn.stored)|)
  {
    id := syn.Store(Folder(name, FolderType, parentId));
  }

  // ---------------------------------------------------------------------
  // The loop as a function of its input: the specification of Mirror.
  // ---------------------------------------------------------------------

  /** What the loop has built so far: the `mapping` dictionary, the value of
      `folder_id` (None until it is first assigned), the folders stored in
      the catalog, the folder URI each `create_folder` call was made for
      (ghost bookkeeping), and the lines printed. */
  datatype MirrorState = MirrorState(
    mapping: map<string, string>,
    folderId: Option<string>,
    stored: seq<Folder>,
    uris: seq<string>,
    output: seq<string>)

  /** `m'` keeps every key of `m` with its value. */
  ghost predicate Extends(m: map<string, string>, m': map<string, string>) {
    forall k | k in m :: k in m' && m'[k] == m[k]
  }

  /** No key of `m` other than `key`. */
  ghost predicate OnlyKey(m: map<string, string>, key: string) {
    forall k | k in m :: k == key
  }

  /** `mapping = {outdir: parent_id}`, before any line is read. */
  function Start(stored: seq<Folder>, outdir: string, parentId: string): MirrorState {
    MirrorState(map[outdir := parentId], None, stored, [], [])
  }

  /** One pass of the inner loop body for segment `folder`, with the running
      URI at `folderUri`. */
  function Descend(st: MirrorState, folderUri: string, folder: string): (r: MirrorState)
    requires folderUri in st.mapping
    ensures folderUri + folder + "/" in r.mapping
    ensures Extends(st.mapping, r.mapping)
    ensures forall k | k in r.mapping :: k in st.mapping || k == folderUri + folder + "/"
    ensures r.output == st.output && st.stored <= r.stored
    ensures st.folderId.Some? ==> r.folderId.Some?
  {
    var parentId := st.mapping[folderUri];
    var uri := folderUri + folder + "/";
    if uri in st.mapping then st
    else
      var id := EntityId(|st.stored|);
      st.(mapping := st.mapping[uri := id], folderId := Some(id),
          stored := st.stored + [Folder(folder, FolderType, parentId)],
          uris := st.uris + [uri])
  }

  /** The inner loop over `folders`, starting with the running URI at `root`.
      The lookup `mapping[folder_uri]` never fails: every URI the walk reaches
      is a key when it is looked up. */
  function Walk(st: MirrorState, root: string, folders: seq<string>): (r: MirrorState)
    requires root in st.mapping
    ensures root + Nest(folders) in r.mapping
    ensures Extends(st.mapping, r.mapping)
    ensures r.output == st.output && st.stored <= r.stored
    ensures st.folderId.Some? ==> r.folderId.Some?
    ensures folders != [] && OnlyKey(st.mapping, root) ==> r.folderId.Some?
    decreases |folders|
  {
    if folders == [] then
      assert root + Nest(folders) == root;
      st
    else
      var n := |folders| - 1;
      var w := Walk(st, root, folders[..n]);
      assert root + Nest(folders) == root + Nest(folders[..n]) + folders[n] + "/";
      Descend(w, root + Nest(folders[..n]), folders[n])
  }

  /** The directory the loop walks for one input line: the head of
      `os.path.split(line.rstrip())` with every occurrence of `outdir`
      removed, split at `/`. */
  function Segments(outdir: string, line: string): (segs: seq<string>)
    ensures |segs| >= 1
    ensures forall k | 0 <= k < |segs| :: '/' !in segs[k]
  {
    Split(RemoveAll(PathSplit(RStrip(line)).0, outdir), '/')
  }

  /** The body of the outer loop for one input line. */
  function MirrorLine(st: MirrorState, outdir: string, line: string): (r: MirrorState)
    requires outdir in st.mapping
    requires st.folderId.None? ==> OnlyKey(st.mapping, outdir)
    ensures outdir in r.mapping && r.folderId.Some?
    ensures Extends(st.mapping, r.mapping)
    ensures r.output == st.output + [RStrip(line) + "," + r.folderId.value]
    ensures st.stored <= r.stored
  {
    var w := Walk(st, outdir, Segments(outdir, line));
    w.(output := w.output + [RStrip(line) + "," + w.folderId.value])
  }

  /** The outer loop over the first `|lines|` lines. */
  function MirrorLines(st: MirrorState, outdir: string, lines: seq<string>): (r: MirrorState)
    requires outdir in st.mapping
    requires st.folderId.None? ==> OnlyKey(st.mapping, outdir)
    ensures outdir in r.mapping
    ensures r.folderId.None? ==> OnlyKey(r.mapping, outdir)
    ensures lines != [] ==> r.folderId.Some?
    ensures Extends(st.mapping, r.mapping)
    ensures |r.output| == |st.output| + |lines| && st.output <= r.output
    decreases |lines|
  {
    if lines == [] then st
    else MirrorLine(MirrorLines(st, outdir, lines[..|lines| - 1]), outdir, lines[|lines| - 1])
  }

  /** A whole run of the script over `lines`, against a catalog that already
      holds `stored`. */
  function MirrorRun(stored: seq<Folder>, outdir: string, parentId: string, lines: seq<string>): MirrorState {
    MirrorLines(Start(stored, outdir, parentId), outdir, lines)
  }

  // ---------------------------------------------------------------------
  // What every run keeps true.
  // ---------------------------------------------------------------------

  /** The URI one segment shorter than `uri`, when its last segment is `name`. */
  function ParentUri(uri: string, name: string): string
    requires |name| < |uri|
  {
    uri[..|uri| - |name| - 1]
  }

  /** The folder stored at position `n` was created for `uri`: it is named by
      the last segment of `uri`, a name without `/`, and its parent is the id
      mapped to the URI one segment shorter. */
  ghost predicate CreatedFor(mapping: map<string, string>, stored: seq<Folder>, n: nat, uri: string)
    requires n < |stored|
  {
    var f := stored[n];
    && f.concreteType == FolderType
    && '/' !in f.name && |f.name| < |uri|
    && uri == ParentUri(uri, f.name) + f.name + "/"
    && ParentUri(uri, f.name) in mapping
    && mapping[ParentUri(uri, f.name)] == f.parentId
  }

  /** The invariant of a run that started from a catalog holding `base`:
      `outdir` keeps `parentId`; every other key is the URI of exactly one
      `create_folder` call, made in order, whose id is the value of the key;
      and `folder_id` holds the id of the most recent call. */
  ghost predicate Valid(st: MirrorState, outdir: string, parentId: string, base: seq<Folder>) {
    Registry(st.mapping, st.folderId, st.stored, st.uris, outdir, parentId, base)
  }

  /** The `i`-th `create_folder` call of the run was made for `uris[i]`,
      whose key now maps to the id that call returned. */
  ghost predicate Entry(mapping: map<string, string>, stored: seq<Folder>, uris: seq<string>,
                        outdir: string, offset: nat, i: nat)
    requires i < |uris| && offset + |uris| <= |stored|
  {
    && uris[i] != outdir && uris[i] in mapping
    && mapping[uris[i]] == EntityId(offset + i)
    && CreatedFor(mapping, stored, offset + i, uris[i])
  }

  ghost predicate Entries(mapping: map<string, string>, stored: seq<Folder>, uris: seq<string>,
                          outdir: string, offset: nat)
    requires offset + |uris| <= |stored|
  {
    forall i | 0 <= i < |uris| :: Entry(mapping, stored, uris, outdir, offset, i)
  }

  ghost predicate Registry(mapping: map<string, string>, folderId: Option<string>, stored: seq<Folder>,
                           uris: seq<string>, outdir: string, parentId: string, base: seq<Folder>) {
    && outdir in mapping && mapping[outdir] == parentId
    && |stored| == |base| + |uris| && stored[..|base|] == base
    && |mapping| == |uris| + 1
    && (forall k | k in mapping :: k == outdir || k in uris)
    && Entries(mapping, stored, uris, outdir, |base|)
    && (forall i, j | 0 <= i < j < |uris| :: uris[i] != uris[j])
    && (folderId.None? <==> uris == [])
    && (uris != [] ==> folderId == Some(EntityId(|stored| - 1)))
  }

  /** Creating the folder for a new key `uri` under the key `folderUri`
      keeps the earlier entries and adds the new one. */
  lemma InsertKeepsEntries(mapping: map<string, string>, stored: seq<Folder>, uris: seq<string>,
                           outdir: string, offset: nat, folderUri: string, folder: string)
    requires offset + |uris| == |stored| && Entries(mapping, stored, uris, outdir, offset)
    requires folderUri in mapping && folderUri + folder + "/" !in mapping
    requires folderUri + folder + "/" != outdir && '/' !in folder
    ensures var uri := folderUri + folder + "/";
      Entries(mapping[uri := EntityId(|stored|)], stored + [Folder(folder, FolderType, mapping[folderUri])],
              uris + [uri], outdir, offset)
  {
    var uri := folderUri + folder + "/";
    var mapping' := mapping[uri := EntityId(|stored|)];
    var stored' := stored + [Folder(folder, FolderType, mapping[folderUri])];
    var uris' := uris + [uri];
    forall i | 0 <= i < |uris'| ensures Entry(mapping', stored', uris', outdir, offset, i) {
      if i < |uris| {
        EntryKept(mapping, stored, uris, outdir, offset, i, uri, EntityId(|stored|), stored'[|stored|]);
      } else {
        assert ParentUri(uri, folder) == folderUri;
      }
    }
  }

  lemma EntryKept(mapping: map<string, string>, stored: seq<Folder>, uris: seq<string>,
                  outdir: string, offset: nat, i: nat, uri: string, id: string, f: Folder)
    requires i < |uris| && offset + |uris| <= |stored|
    requires Entry(mapping, stored, uris, outdir, offset, i) && uri !in mapping
    ensures Entry(mapping[uri := id], stored + [f], uris + [uri], outdir, offset, i)
  {
    var g := stored[offset + i];
    assert (stored + [f])[offset + i] == g;
    assert ParentUri(uris[i], g.name) in mapping;
  }

  lemma DescendValid(st: MirrorState, outdir: string, parentId: string, base: seq<Folder>,
                     folderUri: string, folder: string)
    requires Valid(st, outdir, parentId, base) && folderUri in st.mapping && '/' !in folder
    ensures Valid(Descend(st, folderUri, folder), outdir, parentId, base)
  {
    var uri := folderUri + folder + "/";
    if uri !in st.mapping {
      var r := Descend(st, folderUri, folder);
      InsertKeepsEntries(st.mapping, st.stored, st.uris, outdir, |base|, folderUri, folder);
      forall i | 0 <= i < |st.uris| ensures st.uris[i] != uri {
        assert Entry(st.mapping, st.stored, st.uris, outdir, |base|, i);
      }
      assert r.stored[..|base|] == base by {
        assert r.stored == st.stored + [r.stored[|st.stored|]];
      }
    }
  }

  lemma {:induction false} WalkValid(st: MirrorState, outdir: string, parentId: string, base: seq<Folder>,
                                     root: string, folders: seq<string>)
    requires Valid(st, outdir, parentId, base) && root in st.mapping
    requires forall k | 0 <= k < |folders| :: '/' !in folders[k]
    ensures Valid(Walk(st, root, folders), outdir, parentId, base)
    decreases |folders|
  {
    if folders != [] {
      var n := |folders| - 1;
      WalkValid(st, outdir, parentId, base, root, folders[..n]);
      DescendValid(Walk(st, root, folders[..n]), outdir, parentId, base, root + Nest(folders[..n]), folders[n]);
    }
  }

  lemma {:induction false} MirrorRunValid(base: seq<Folder>, outdir: string, parentId: string, lines: seq<string>)
    ensures Valid(MirrorRun(base, outdir, parentId, lines), outdir, parentId, base)
    decreases |lines|
  {
    if lines == [] {
      assert base[..|base|] == base;
    } else {
      var n := |lines| - 1;
      MirrorRunValid(base, outdir, parentId, lines[..n]);
      var st := MirrorRun(base, outdir, parentId, lines[..n]);
      var w := Walk(st, outdir, Segments(outdir, lines[n]));
      WalkValid(st, outdir, parentId, base, outdir, Segments(outdir, lines[n]));
      var r := MirrorRun(base, outdir, parentId, lines);
      assert r == MirrorLine(st, outdir, lines[n]);
      assert r.mapping == w.mapping && r.stored == w.stored && r.uris == w.uris && r.folderId == w.folderId;
    }
  }

  // ---------------------------------------------------------------------
  // Properties of a whole run.
  // ---------------------------------------------------------------------

  /** `create_folder` is called once per distinct folder URI and for nothing
      else: the calls of a run are one per key of `mapping` other than
      `outdir`, each for a different URI, appended to what the catalog held. */
  lemma CreateFolderOncePerUri(base: seq<Folder>, outdir: string, parentId: string, lines: seq<string>)
    ensures var r := MirrorRun(base, outdir, parentId, lines);
      && |r.stored| - |base| == |r.mapping| - 1 == |r.uris|
      && r.stored[..|base|] == base
      && (forall i, j | 0 <= i < j < |r.uris| :: r.uris[i] != r.uris[j])
      && (forall k | k in r.mapping :: k == outdir || k in r.uris)
      && (forall i | 0 <= i < |r.uris| :: r.uris[i] in r.mapping && r.uris[i] != outdir)
  {
    MirrorRunValid(base, outdir, parentId, lines);
    ValidUrisAreKeys(MirrorRun(base, outdir, parentId, lines), outdir, parentId, base);
  }

  lemma ValidUrisAreKeys(st: MirrorState, outdir: string, parentId: string, base: seq<Folder>)
    requires Valid(st, outdir, parentId, base)
    ensures forall i | 0 <= i < |st.uris| :: st.uris[i] in st.mapping && st.uris[i] != outdir
  {
    forall i | 0 <= i < |st.uris| ensures st.uris[i] in st.mapping && st.uris[i] != outdir {
      assert Entry(st.mapping, st.stored, st.uris, outdir, |base|, i);
    }
  }

  /** Each folder created since `base` is named by the last segment of its
      URI, sits under the id mapped to the URI one segment shorter, and its
      id is what `mapping` holds for its URI; `outdir` keeps `parentId`. */
  ghost predicate FoldersUnderParents(st: MirrorState, outdir: string, parentId: string, base: seq<Folder>) {
    && outdir in st.mapping && st.mapping[outdir] == parentId
    && |st.stored| == |base| + |st.uris|
    && forall i | 0 <= i < |st.uris| ::
         var f, uri := st.stored[|base| + i], st.uris[i];
         && f.concreteType == FolderType
         && '/' !in f.name && |f.name| < |uri| && uri == ParentUri(uri, f.name) + f.name + "/"
         && ParentUri(uri, f.name) in st.mapping
         && st.mapping[ParentUri(uri, f.name)] == f.parentId
         && uri in st.mapping && st.mapping[uri] == EntityId(|base| + i)
  }

  /** Every folder a run creates sits under the folder of the URI one
      segment shorter, with the id `mapping` holds for its own URI. */
  lemma NewFolderUnderParent(base: seq<Folder>, outdir: string, parentId: string, lines: seq<string>)
    ensures FoldersUnderParents(MirrorRun(base, outdir, parentId, lines), outdir, parentId, base)
  {
    MirrorRunValid(base, outdir, parentId, lines);
    ValidFoldersUnderParent(MirrorRun(base, outdir, parentId, lines), outdir, parentId, base);
  }

  lemma ValidFoldersUnderParent(st: MirrorState, outdir: string, parentId: string, base: seq<Folder>)
    requires Valid(st, outdir, parentId, base)
    ensures FoldersUnderParents(st, outdir, parentId, base)
  {
    forall i | 0 <= i < |st.uris|
      ensures var f, uri := st.stored[|base| + i], st.uris[i];
           && f.concreteType == FolderType
           && '/' !in f.name && |f.name| < |uri| && uri == ParentUri(uri, f.name) + f.name + "/"
           && ParentUri(uri, f.name) in st.mapping
           && st.mapping[ParentUri(uri, f.name)] == f.parentId
           && uri in st.mapping && st.mapping[uri] == EntityId(|base| + i)
    {
      assert Entry(st.mapping, st.stored, st.uris, outdir, |base|, i);
    }
  }

  /** Every key of `mapping` other than `outdir` ends in `/`. */
  lemma KeysEndInSlash(base: seq<Folder>, outdir: string, parentId: string, lines: seq<string>)
    ensures var r := MirrorRun(base, outdir, parentId, lines);
      forall k | k in r.mapping && k != outdir :: |k| > 0 && k[|k| - 1] == '/'
  {
    MirrorRunValid(base, outdir, parentId, lines);
    ValidKeysEndInSlash(MirrorRun(base, outdir, parentId, lines), outdir, parentId, base);
  }

  lemma ValidKeysEndInSlash(st: MirrorState, outdir: string, parentId: string, base: seq<Folder>)
    requires Valid(st, outdir, parentId, base)
    ensures forall k | k in st.mapping && k != outdir :: |k| > 0 && k[|k| - 1] == '/'
  {
    forall k | k in st.mapping && k != outdir ensures |k| > 0 && k[|k| - 1] == '/' {
      var i :| 0 <= i < |st.uris| && st.uris[i] == k;
      assert Entry(st.mapping, st.stored, st.uris, outdir, |base|, i);
      var f := st.stored[|base| + i];
      assert k == ParentUri(k, f.name) + f.name + "/";
    }
  }

  /** Reading more lines only adds: no key of `mapping` is removed or
      rebound, the catalog and the output only grow at the end. */
  lemma {:induction false} MirrorRunGrows(base: seq<Folder>, outdir: string, parentId: string,
                                          lines: seq<string>, more: seq<string>)
    ensures var a, b := MirrorRun(base, outdir, parentId, lines), MirrorRun(base, outdir, parentId, lines + more);
      && Extends(a.mapping, b.mapping)
      && a.stored <= b.stored
      && a.output <= b.output
    decreases |more|
  {
    if more == [] {
      assert lines + more == lines;
    } else {
      var n := |more| - 1;
      MirrorRunGrows(base, outdir, parentId, lines, more[..n]);
      assert (lines + more)[..|lines + more| - 1] == lines + more[..n];
    }
  }

  /** The line printed for the last input line carries the id of the most
      recent `create_folder` call. */
  lemma LastLinePrintsLatestId(base: seq<Folder>, outdir: string, parentId: string, lines: seq<string>)
    requires lines != []
    ensures var r := MirrorRun(base, outdir, parentId, lines);
      && |base| < |r.stored| && |r.output| == |lines|
      && r.output[|lines| - 1] == RStrip(lines[|lines| - 1]) + "," + EntityId(|r.stored| - 1)
  {
    var n := |lines| - 1;
    var st := MirrorRun(base, outdir, parentId, lines[..n]);
    var r := MirrorRun(base, outdir, parentId, lines);
    MirrorRunValid(base, outdir, parentId, lines);
    assert r == MirrorLine(st, outdir, lines[n]);
    assert r.output[n] == RStrip(lines[n]) + "," + r.folderId.value;
  }

  /** The run over the first `i + 1` lines is the run over the first `i`
      followed by line `i`. */
  lemma MirrorRunStep(base: seq<Folder>, outdir: string, parentId: string, lines: seq<string>, i: nat)
    requires i < |lines|
    ensures MirrorRun(base, outdir, parentId, lines[..i + 1])
         == MirrorLine(MirrorRun(base, outdir, parentId, lines[..i]), outdir, lines[i])
  {
    assert lines[..i + 1][..i] == lines[..i];
  }

  /** The whole run extends the run over the first `i + 1` lines. */
  lemma MirrorRunExtendsPrefix(base: seq<Folder>, outdir: string, parentId: string, lines: seq<string>, i: nat)
    requires i < |lines|
    ensures var a, r := MirrorRun(base, outdir, parentId, lines[..i + 1]), MirrorRun(base, outdir, parentId, lines);
      Extends(a.mapping, r.mapping) && a.output <= r.output
  {
    assert lines[..i + 1] + lines[i + 1..] == lines;
    MirrorRunGrows(base, outdir, parentId, lines[..i + 1], lines[i + 1..]);
  }

  /** Line `i` of the whole output is the last line printed by the run over
      the first `i + 1` lines. */
  lemma MirrorOutputIsPrefixOutput(base: seq<Folder>, outdir: string, parentId: string, lines: seq<string>, i: nat)
    requires i < |lines|
    ensures var r, upTo := MirrorRun(base, outdir, parentId, lines), MirrorRun(base, outdir, parentId, lines[..i + 1]);
      |r.output| == |lines| && |upTo.output| == i + 1 && r.output[i] == upTo.output[i]
  {
    MirrorRunExtendsPrefix(base, outdir, parentId, lines, i);
  }

  /** The `i`-th printed line is the `i`-th object URI with the id of the
      most recent `create_folder` call made by the end of line `i`. */
  lemma MirrorOutputAt(base: seq<Folder>, outdir: string, parentId: string, lines: seq<string>, i: nat)
    requires i < |lines|
    ensures var r, upTo := MirrorRun(base, outdir, parentId, lines), MirrorRun(base, outdir, parentId, lines[..i + 1]);
      && |r.output| == |lines| && |base| < |upTo.stored|
      && r.output[i] == RStrip(lines[i]) + "," + EntityId(|upTo.stored| - 1)
  {
    LatestIdAt(base, outdir, parentId, lines, i);
    MirrorOutputIsPrefixOutput(base, outdir, parentId, lines, i);
  }

  /** `LastLinePrintsLatestId` for the run over the first `i + 1` lines. */
  lemma LatestIdAt(base: seq<Folder>, outdir: string, parentId: string, lines: seq<string>, i: nat)
    requires i < |lines|
    ensures var upTo := MirrorRun(base, outdir, parentId, lines[..i + 1]);
      && |base| < |upTo.stored| && |upTo.output| == i + 1
      && upTo.output[i] == RStrip(lines[i]) + "," + EntityId(|upTo.stored| - 1)
  {
    LastLinePrintsLatestId(base, outdir, parentId, lines[..i + 1]);
  }

  /** The URI the inner loop ends at for `line`: `outdir`, then the
      directory part with `outdir` removed, then `/`.  It names the folder the object sits in only when `replace` removes
      just the leading `outdir`; for an object directly under `outdir` it does
      not (`TopLevelWalksOwnHead`). */
  function ContainingUri(outdir: string, line: string): string {
    outdir + RemoveAll(PathSplit(RStrip(line)).0, outdir) + "/"
  }

  /** After the inner loop, `folder_uri` is `outdir` followed by every
      segment and a `/`, which is `ContainingUri`, and it is a key. */
  lemma LineReachesContainingUri(st: MirrorState, outdir: string, line: string)
    requires outdir in st.mapping
    ensures outdir + Nest(Segments(outdir, line)) == ContainingUri(outdir, line)
    ensures ContainingUri(outdir, line) in Walk(st, outdir, Segments(outdir, line)).mapping
  {
    ContainingUriIsNest(outdir, line);
  }

  lemma ContainingUriIsNest(outdir: string, line: string)
    ensures outdir + Nest(Segments(outdir, line)) == ContainingUri(outdir, line)
  {
    var rel := RemoveAll(PathSplit(RStrip(line)).0, outdir);
    NestSplit(rel);
    assert outdir + (rel + "/") == outdir + rel + "/";
  }

  /** Keys the walk adds are no longer than the URI it ends at. */
  lemma {:induction false} WalkAddsShorterKeys(st: MirrorState, root: string, folders: seq<string>)
    requires root in st.mapping
    ensures forall k | k in Walk(st, root, folders).mapping :: k in st.mapping || |k| <= |root + Nest(folders)|
    decreases |folders|
  {
    if folders != [] {
      var n := |folders| - 1;
      WalkAddsShorterKeys(st, root, folders[..n]);
      NestStep(root, folders, n);
      assert folders[..n + 1] == folders;
    }
  }

  /** When the walk creates the folder it ends at, `folder_id` is that
      folder's id. */
  lemma WalkCreatesDeepest(st: MirrorState, root: string, folders: seq<string>)
    requires root in st.mapping && folders != []
    requires root + Nest(folders) !in st.mapping
    ensures var r := Walk(st, root, folders);
      r.folderId == Some(r.mapping[root + Nest(folders)])
  {
    var n := |folders| - 1;
    WalkAddsShorterKeys(st, root, folders[..n]);
    NestStep(root, folders, n);
    assert folders[..n + 1] == folders;
  }

  /** A line whose inner loop ends at a URI that was not a key before
      prints the id of the folder created for that URI. */
  lemma DeepestCreatedIsPrinted(st: MirrorState, outdir: string, line: string)
    requires outdir in st.mapping && (st.folderId.None? ==> OnlyKey(st.mapping, outdir))
    requires ContainingUri(outdir, line) !in st.mapping
    ensures var r := MirrorLine(st, outdir, line);
      ContainingUri(outdir, line) in r.mapping
      && r.output == st.output + [RStrip(line) + "," + r.mapping[ContainingUri(outdir, line)]]
  {
    LineReachesContainingUri(st, outdir, line);
    WalkCreatesDeepest(st, outdir, Segments(outdir, line));
  }

  // ---------------------------------------------------------------------
  // The printed id, as written and as intended.
  // ---------------------------------------------------------------------

  /** The line the loop evidently means to print for `lines[i]`: the object
      URI with `mapping[folder_uri]` right after the inner loop, the id of the
      URI the inner loop ends at rather than whatever `folder_id` holds. */
  function IntendedLine(base: seq<Folder>, outdir: string, parentId: string, lines: seq<string>, i: nat): string
    requires i < |lines|
  {
    var st := MirrorRun(base, outdir, parentId, lines[..i]);
    var r := MirrorRun(base, outdir, parentId, lines[..i + 1]);
    assert lines[..i + 1][..i] == lines[..i];
    LineReachesContainingUri(st, outdir, lines[i]);
    RStrip(lines[i]) + "," + r.mapping[ContainingUri(outdir, lines[i])]
  }

  function IntendedOutput(base: seq<Folder>, outdir: string, parentId: string, lines: seq<string>): (out: seq<string>)
    ensures |out| == |lines|
  {
    seq(|lines|, i requires 0 <= i < |lines| => IntendedLine(base, outdir, parentId, lines, i))
  }

  /** The intended line for `lines[i]` names the id `mapping` holds right
      after line `i` for the URI the line's inner loop ends at. */
  lemma IntendedLineIs(base: seq<Folder>, outdir: string, parentId: string, lines: seq<string>, i: nat)
    requires i < |lines|
    ensures var upTo := MirrorRun(base, outdir, parentId, lines[..i + 1]);
      && ContainingUri(outdir, lines[i]) in upTo.mapping
      && IntendedLine(base, outdir, parentId, lines, i)
         == RStrip(lines[i]) + "," + upTo.mapping[ContainingUri(outdir, lines[i])]
  {
    MirrorRunStep(base, outdir, parentId, lines, i);
    LineReachesContainingUri(MirrorRun(base, outdir, parentId, lines[..i]), outdir, lines[i]);
  }

  /** With the intended print, every line names the id the final `mapping`
      holds for the URI the line's inner loop ends at, which is the id of the
      `create_folder` call made for that URI. */
  lemma IntendedOutputNamesContainingFolder(base: seq<Folder>, outdir: string, parentId: string, lines: seq<string>)
    ensures var r, out := MirrorRun(base, outdir, parentId, lines), IntendedOutput(base, outdir, parentId, lines);
      forall i | 0 <= i < |lines| ::
        && ContainingUri(outdir, lines[i]) in r.mapping
        && ContainingUri(outdir, lines[i]) != outdir
        && out[i] == RStrip(lines[i]) + "," + r.mapping[ContainingUri(outdir, lines[i])]
  {
    forall i | 0 <= i < |lines|
      ensures var r := MirrorRun(base, outdir, parentId, lines);
        && ContainingUri(outdir, lines[i]) in r.mapping
        && ContainingUri(outdir, lines[i]) != outdir
        && IntendedOutput(base, outdir, parentId, lines)[i]
           == RStrip(lines[i]) + "," + r.mapping[ContainingUri(outdir, lines[i])]
    {
      IntendedLineNamesContainingFolder(base, outdir, parentId, lines, i);
    }
  }

  /** The intended line for `lines[i]` already carries the id the final
      `mapping` holds for the URI its inner loop ends at. */
  lemma IntendedLineNamesContainingFolder(base: seq<Folder>, outdir: string, parentId: string,
                                          lines: seq<string>, i: nat)
    requires i < |lines|
    ensures var r := MirrorRun(base, outdir, parentId, lines);
      && ContainingUri(outdir, lines[i]) in r.mapping
      && ContainingUri(outdir, lines[i]) != outdir
      && IntendedLine(base, outdir, parentId, lines, i)
         == RStrip(lines[i]) + "," + r.mapping[ContainingUri(outdir, lines[i])]
  {
    IntendedLineIs(base, outdir, parentId, lines, i);
    MirrorRunExtendsPrefix(base, outdir, parentId, lines, i);
    assert |ContainingUri(outdir, lines[i])| > |outdir|;
  }

  /** The directory segments of an object `r/<d>/<name>` under `r/`. */
  lemma SegmentsUnderR(d: char, name: char)
    requires d != '/' && d != 'r' && name != '/' && !IsSpace(name)
    ensures Segments("r/", ['r', '/', d, '/', name]) == [[d]]
  {
    var p := ['r', '/', d, '/', name];
    assert RStrip(p) == p;
    assert RFind(p, '/') == 3;
    assert p[..4] == ['r', '/', d, '/'];
    assert !AllChar(p[..4], '/') by { assert p[..4][0] == 'r'; }
    assert RStripChar(p[..4], '/') == ['r', '/', d];
    assert PathSplit(p).0 == ['r', '/', d];
    assert RemoveAll(['r', '/', d], "r/") == [d];
    assert Split([d], '/') == [[d]];
  }

  lemma WalkOne(st: MirrorState, root: string, folder: string)
    requires root in st.mapping
    ensures Walk(st, root, [folder]) == Descend(st, root, folder)
  {
    assert [folder][..0] == [];
    assert root + Nest([]) == root;
  }

  /** A line with a single directory segment: one pass of the inner loop,
      then the print. */
  lemma MirrorLineOne(st: MirrorState, outdir: string, line: string, folder: string)
    requires outdir in st.mapping && (st.folderId.None? ==> OnlyKey(st.mapping, outdir))
    requires Segments(outdir, line) == [folder]
    ensures var d := Descend(st, outdir, folder);
      && d.folderId.Some?
      && MirrorLine(st, outdir, line) == d.(output := d.output + [RStrip(line) + "," + d.folderId.value])
  {
    assert |outdir + folder + "/"| > |outdir|;
    WalkOne(st, outdir, folder);
  }

  /** `Nest` of one segment. */
  lemma NestOne(folder: string)
    ensures Nest([folder]) == folder + "/"
  {
    assert [folder][..0] == [];
  }

  /** Two distinct segments under the same URI give distinct URIs. */
  lemma ChildUrisDiffer(root: string, a: string, b: string)
    requires a != b
    ensures root + a + "/" != root + b + "/" && root + a + "/" != root
  {
    var x, y := root + a + "/", root + b + "/";
    if |a| == |b| {
      var i :| 0 <= i < |a| && a[i] != b[i];
      assert x[|root| + i] != y[|root| + i];
    } else {
      assert |x| != |y|;
    }
  }

  /** As written, a line whose folder already exists prints the id left in
      `folder_id` by an earlier line. Three objects in a fresh run: the inner
      loop of the first and third ends at the URI for segment `a`, that of the
      second at the one for `b`. The third line is printed with the id of
      `b`'s folder (the second folder created), while the URI its inner loop
      ends at maps to `a`'s (the first). */
  lemma StaleIdAfterSibling(outdir: string, parentId: string, l1: string, l2: string, l3: string,
                            a: string, b: string)
    requires a != b
    requires Segments(outdir, l1) == [a] && Segments(outdir, l2) == [b] && Segments(outdir, l3) == [a]
    ensures var lines := [l1] + [l2] + [l3];
      && MirrorRun([], outdir, parentId, lines).output[2] == RStrip(l3) + "," + EntityId(1)
      && IntendedOutput([], outdir, parentId, lines)[2] == RStrip(l3) + "," + EntityId(0)
  {
    ThreeSiblings(outdir, parentId, l1, l2, l3, a, b);
    IntendedOutputLast([], outdir, parentId, [l1] + [l2] + [l3]);
  }

  /** The intended line for the last input line names the id `mapping`
      holds at the end of the run for the URI its inner loop ends at. */
  lemma IntendedOutputLast(base: seq<Folder>, outdir: string, parentId: string, lines: seq<string>)
    requires lines != []
    ensures var r, last := MirrorRun(base, outdir, parentId, lines), lines[|lines| - 1];
      && ContainingUri(outdir, last) in r.mapping
      && IntendedOutput(base, outdir, parentId, lines)[|lines| - 1]
         == RStrip(last) + "," + r.mapping[ContainingUri(outdir, last)]
  {
    IntendedLineIs(base, outdir, parentId, lines, |lines| - 1);
    assert lines[..|lines|] == lines;
  }

  /** The run over the three lines: the third is printed with the second id,
      and the URI its inner loop ends at maps to the first. */
  lemma ThreeSiblings(outdir: string, parentId: string, l1: string, l2: string, l3: string,
                      a: string, b: string)
    requires a != b
    requires Segments(outdir, l1) == [a] && Segments(outdir, l2) == [b] && Segments(outdir, l3) == [a]
    ensures var r := MirrorRun([], outdir, parentId, [l1] + [l2] + [l3]);
      && r.output[2] == RStrip(l3) + "," + EntityId(1)
      && ContainingUri(outdir, l3) in r.mapping
      && r.mapping[ContainingUri(outdir, l3)] == EntityId(0)
  {
    TwoSiblings(outdir, parentId, l1, l2, a, b);
    MirrorRunSnoc([], outdir, parentId, [l1] + [l2], l3);
    ThirdSibling(MirrorRun([], outdir, parentId, [l1] + [l2]), outdir, l3, a);
  }

  /** The run over the first two lines has created both folders and left
      `folder_id` at the second. */
  lemma TwoSiblings(outdir: string, parentId: string, l1: string, l2: string, a: string, b: string)
    requires a != b
    requires Segments(outdir, l1) == [a] && Segments(outdir, l2) == [b]
    ensures var s2 := MirrorRun([], outdir, parentId, [l1] + [l2]);
      && outdir in s2.mapping && outdir + a + "/" in s2.mapping
      && s2.mapping[outdir + a + "/"] == EntityId(0) && s2.folderId == Some(EntityId(1))
  {
    FirstSibling(outdir, parentId, l1, a);
    MirrorRunSnoc([], outdir, parentId, [l1], l2);
    SecondSibling(MirrorRun([], outdir, parentId, [l1]), outdir, l2, a, b);
  }

  /** Reading one more line is one more pass of the outer loop. */
  lemma MirrorRunSnoc(base: seq<Folder>, outdir: string, parentId: string, lines: seq<string>, line: string)
    ensures MirrorRun(base, outdir, parentId, lines + [line])
         == MirrorLine(MirrorRun(base, outdir, parentId, lines), outdir, line)
  {
    assert (lines + [line])[..|lines|] == lines;
  }

  /** The first line of a fresh run creates the folder for its one segment. */
  lemma FirstSibling(outdir: string, parentId: string, l1: string, a: string)
    requires Segments(outdir, l1) == [a]
    ensures var s1 := MirrorRun([], outdir, parentId, [l1]);
      && outdir in s1.mapping && outdir + a + "/" in s1.mapping
      && s1.mapping[outdir + a + "/"] == EntityId(0)
      && (forall k | k in s1.mapping :: k == outdir || k == outdir + a + "/")
      && s1.folderId.Some? && |s1.stored| == 1
  {
    var s0 := Start([], outdir, parentId);
    MirrorRunSnoc([], outdir, parentId, [], l1);
    assert [] + [l1] == [l1];
    MirrorLineOne(s0, outdir, l1, a);
  }

  /** A second line under a sibling segment creates a second folder, and
      `folder_id` is left at its id. */
  lemma SecondSibling(s1: MirrorState, outdir: string, l2: string, a: string, b: string)
    requires a != b
    requires outdir in s1.mapping && outdir + a + "/" in s1.mapping
    requires s1.mapping[outdir + a + "/"] == EntityId(0)
    requires forall k | k in s1.mapping :: k == outdir || k == outdir + a + "/"
    requires s1.folderId.Some? && |s1.stored| == 1
    requires Segments(outdir, l2) == [b]
    ensures var s2 := MirrorLine(s1, outdir, l2);
      && outdir in s2.mapping && outdir + a + "/" in s2.mapping
      && s2.mapping[outdir + a + "/"] == EntityId(0) && s2.folderId == Some(EntityId(1))
  {
    ChildUrisDiffer(outdir, b, a);
    assert outdir + b + "/" !in s1.mapping;
    MirrorLineOne(s1, outdir, l2, b);
  }

  /** A third line back under the first segment finds its folder and prints
      `folder_id` unchanged, while the folder's own id is the first one. */
  lemma ThirdSibling(s2: MirrorState, outdir: string, l3: string, a: string)
    requires outdir in s2.mapping && outdir + a + "/" in s2.mapping
    requires s2.mapping[outdir + a + "/"] == EntityId(0) && s2.folderId == Some(EntityId(1))
    requires Segments(outdir, l3) == [a]
    ensures var s3 := MirrorLine(s2, outdir, l3);
      && s3.output == s2.output + [RStrip(l3) + "," + EntityId(1)]
      && ContainingUri(outdir, l3) in s3.mapping
      && s3.mapping[ContainingUri(outdir, l3)] == EntityId(0)
  {
    MirrorLineOne(s2, outdir, l3, a);
    ContainingUriIsNest(outdir, l3);
    NestOne(a);
  }

  /** The same run on concrete input: the objects `r/a/x`, `r/b/y`, `r/a/z`
      under `r/`. The third line is printed with `syn1`, the id of `r/b/`,
      instead of `syn0`, the id of `r/a/`. */
  lemma StalePrintedId(l1: string, l2: string, l3: string)
    requires l1 == "r/a/x" && l2 == "r/b/y" && l3 == "r/a/z"
    ensures MirrorRun([], "r/", "ROOT", [l1] + [l2] + [l3]).output[2] == "r/a/z,syn1"
    ensures IntendedOutput([], "r/", "ROOT", [l1] + [l2] + [l3])[2] == "r/a/z,syn0"
  {
    SegmentsUnderR('a', 'x');
    SegmentsUnderR('b', 'y');
    SegmentsUnderR('a', 'z');
    StaleIdAfterSibling("r/", "ROOT", l1, l2, l3, "a", "b");
    PrintedLines();
  }

  /** The two candidate lines for the object `r/a/z`. */
  lemma PrintedLines()
    ensures RStrip("r/a/z") + "," + EntityId(1) == "r/a/z,syn1"
    ensures RStrip("r/a/z") + "," + EntityId(0) == "r/a/z,syn0"
  {
    assert RStrip("r/a/z") == "r/a/z";
    assert EntityId(0) == "syn0" && EntityId(1) == "syn1";
  }

  // ---------------------------------------------------------------------
  // Objects directly under `outdir`, as written and as intended.
  // ---------------------------------------------------------------------

  /** The object of `line` sits directly under `outdir`: the head of its
      path, with a `/` added, is `outdir` itself. */
  predicate TopLevel(outdir: string, line: string) {
    PathSplit(RStrip(line)).0 + "/" == outdir
  }

  /** As written, the inner loop does not stay at `outdir` for an object
      directly under it: the head is shorter than `outdir`, so `replace`
      leaves it whole, and the loop walks the head's own segments down to
      `outdir + outdir`. */
  lemma TopLevelWalksOwnHead(outdir: string, line: string)
    requires TopLevel(outdir, line)
    ensures Segments(outdir, line) == Split(outdir[..|outdir| - 1], '/')
    ensures ContainingUri(outdir, line) == outdir + outdir
  {
    var head := PathSplit(RStrip(line)).0;
    assert |head| < |outdir|;
    assert RemoveAll(head, outdir) == head;
    assert head == outdir[..|outdir| - 1];
    assert outdir + head + "/" == outdir + (head + "/");
  }

  /** The object `r/x` sits directly under `r/`; as written, its segments
      are `["r"]`. */
  lemma TopLevelPath(line: string)
    requires line == "r/x"
    ensures RStrip(line) == line && TopLevel("r/", line) && Segments("r/", line) == ["r"]
  {
    var p := ['r', '/', 'x'];
    assert line == p;
    assert RStrip(p) == p;
    assert RFind(p, '/') == 1;
    assert p[..2] == ['r', '/'];
    assert !AllChar(p[..2], '/') by { assert p[..2][0] == 'r'; }
    assert RStripChar(p[..2], '/') == ['r'];
    TopLevelWalksOwnHead("r/", line);
    assert Split("r", '/') == ["r"];
  }

  /** A fresh run on one line with the single segment `a` stores one folder
      `a` under the root and prints its id. */
  lemma FreshSingleLine(outdir: string, parentId: string, line: string, a: string)
    requires Segments(outdir, line) == [a]
    ensures var r := MirrorRun([], outdir, parentId, [line]);
      && r.stored == [Folder(a, FolderType, parentId)]
      && outdir + a + "/" in r.mapping
      && r.output == [RStrip(line) + "," + EntityId(0)]
  {
    var s0 := Start([], outdir, parentId);
    MirrorRunSnoc([], outdir, parentId, [], line);
    assert [] + [line] == [line];
    assert |outdir + a + "/"| > |outdir|;
    MirrorLineOne(s0, outdir, line, a);
  }

  /** The run on the single object `r/x` under `r/`: the script creates a
      folder `r` under the root at `r/r/` and prints its id. */
  lemma TopLevelObjectAsWritten(line: string)
    requires line == "r/x"
    ensures var r := MirrorRun([], "r/", "ROOT", [line]);
      && r.stored == [Folder("r", FolderType, "ROOT")]
      && "r/r/" in r.mapping
      && r.output == ["r/x,syn0"]
  {
    TopLevelPath(line);
    FreshSingleLine("r/", "ROOT", line, "r");
    assert "r/" + "r" + "/" == "r/r/";
    assert EntityId(0) == "syn0";
    assert RStrip(line) + "," + EntityId(0) == "r/x,syn0";
  }

  /** The directory segments the loop evidently means to walk: none for an
      object directly under `outdir`, whose relative path is empty, and those
      the script walks for every other object. */
  function IntendedSegments(outdir: string, line: string): (segs: seq<string>)
    ensures forall k | 0 <= k < |segs| :: '/' !in segs[k]
  {
    if TopLevel(outdir, line) then [] else Segments(outdir, line)
  }

  /** The outer loop body as intended: walk the intended segments, then print
      `mapping[folder_uri]`. */
  function IntendedMirrorLine(st: MirrorState, outdir: string, line: string): (r: MirrorState)
    requires outdir in st.mapping
    ensures outdir in r.mapping && Extends(st.mapping, r.mapping)
    ensures |r.output| == |st.output| + 1 && st.output <= r.output
  {
    var segs := IntendedSegments(outdir, line);
    var w := Walk(st, outdir, segs);
    w.(output := w.output + [RStrip(line) + "," + w.mapping[outdir + Nest(segs)]])
  }

  function IntendedMirrorLines(st: MirrorState, outdir: string, lines: seq<string>): (r: MirrorState)
    requires outdir in st.mapping
    ensures outdir in r.mapping && Extends(st.mapping, r.mapping)
    ensures |r.output| == |st.output| + |lines| && st.output <= r.output
    decreases |lines|
  {
    if lines == [] then st
    else IntendedMirrorLine(IntendedMirrorLines(st, outdir, lines[..|lines| - 1]), outdir, lines[|lines| - 1])
  }

  /** A whole run with both corrections: the print of `mapping[folder_uri]`
      and the empty relative path for objects directly under `outdir`. */
  function IntendedRun(stored: seq<Folder>, outdir: string, parentId: string, lines: seq<string>): MirrorState {
    IntendedMirrorLines(Start(stored, outdir, parentId), outdir, lines)
  }

  /** As intended, an object directly under `outdir` creates no folder,
      leaves `mapping` as it is, and is printed with `outdir`'s id. */
  lemma IntendedTopLevelLine(st: MirrorState, outdir: string, line: string)
    requires outdir in st.mapping && TopLevel(outdir, line)
    ensures IntendedMirrorLine(st, outdir, line)
         == st.(output := st.output + [RStrip(line) + "," + st.mapping[outdir]])
  {
    assert IntendedSegments(outdir, line) == [];
    assert outdir + Nest([]) == outdir;
  }

  /** Below `outdir` the intended line creates exactly the folders the
      script creates, and prints the id of the URI the inner loop ends at. */
  lemma IntendedBelowRoot(st: MirrorState, outdir: string, line: string)
    requires outdir in st.mapping && (st.folderId.None? ==> OnlyKey(st.mapping, outdir))
    requires !TopLevel(outdir, line)
    ensures var r, w := IntendedMirrorLine(st, outdir, line), MirrorLine(st, outdir, line);
      && r.mapping == w.mapping && r.stored == w.stored
      && ContainingUri(outdir, line) in r.mapping
      && r.output == st.output + [RStrip(line) + "," + r.mapping[ContainingUri(outdir, line)]]
  {
    LineReachesContainingUri(st, outdir, line);
  }

  /** In a whole intended run, every object directly under `outdir` is
      printed with the root id `parentId`. */
  lemma {:induction false} IntendedTopLevelPrintsRoot(base: seq<Folder>, outdir: string, parentId: string,
                                                      lines: seq<string>, i: nat)
    requires i < |lines| && TopLevel(outdir, lines[i])
    ensures var r := IntendedRun(base, outdir, parentId, lines);
      |r.output| == |lines| && r.output[i] == RStrip(lines[i]) + "," + parentId
    decreases |lines|
  {
    var n := |lines| - 1;
    var prev := IntendedRun(base, outdir, parentId, lines[..n]);
    assert IntendedRun(base, outdir, parentId, lines) == IntendedMirrorLine(prev, outdir, lines[n]);
    if i == n {
      assert prev.mapping[outdir] == parentId;
      IntendedTopLevelLine(prev, outdir, lines[n]);
    } else {
      assert lines[..n][i] == lines[i];
      IntendedTopLevelPrintsRoot(base, outdir, parentId, lines[..n], i);
    }
  }

  /** An intended fresh run on one object directly under `outdir` stores
      nothing and prints the root id. */
  lemma IntendedFreshTopLevel(outdir: string, parentId: string, line: string)
    requires TopLevel(outdir, line)
    ensures IntendedRun([], outdir, parentId, [line])
         == Start([], outdir, parentId).(output := [RStrip(line) + "," + parentId])
  {
    var st := Start([], outdir, parentId);
    assert [line][..0] == [];
    assert IntendedMirrorLines(st, outdir, []) == st;
    assert IntendedMirrorLines(st, outdir, [line])
        == IntendedMirrorLine(IntendedMirrorLines(st, outdir, [line][..0]), outdir, [line][0]);
    IntendedTopLevelLine(st, outdir, line);
    assert st.output + [RStrip(line) + "," + parentId] == [RStrip(line) + "," + parentId];
  }

  /** The intended run on the single object `r/x` under `r/`: nothing is
      created and the line names the root, `r/x,ROOT`. */
  lemma TopLevelObjectIntended(line: string)
    requires line == "r/x"
    ensures var r := IntendedRun([], "r/", "ROOT", [line]);
      && r.stored == [] && r.mapping == map["r/" := "ROOT"]
      && r.output == ["r/x,ROOT"]
  {
    TopLevelPath(line);
    IntendedFreshTopLevel("r/", "ROOT", line);
    assert RStrip(line) + "," + "ROOT" == "r/x,ROOT";
  }

  // ---------------------------------------------------------------------
  // The loop itself.
  // ---------------------------------------------------------------------

  /** Lines 40-53 of the script: `lines` are the lines of the `--objects`
      file, `output` the lines printed. */
  method Mirror(syn: Synapse, lines: seq<string>, outdir: string, parentId: string)
    returns (output: seq<string>, mapping: map<string, string>)
    modifies syn
    ensures var r := MirrorRun(old(syn.stored), outdir, parentId, lines);
      output == r.output && mapping == r.mapping && syn.stored == r.stored
  {
    ghost var base := syn.stored;
    mapping := map[outdir := parentId];
    var folderId: Option<string> := None;
    ghost var uris: seq<string> := [];
    output := [];
    for i := 0 to |lines|
      invariant MirrorRun(base, outdir, parentId, lines[..i]) == MirrorState(mapping, folderId, syn.stored, uris, output)
    {
      var objectUri := RStrip(lines[i]);
      var (head, _) := PathSplit(objectUri);
      var relhead := RemoveAll(head, outdir);
      var folders := Split(relhead, '/');
      ghost var before := MirrorState(mapping, folderId, syn.stored, uris, output);
      mapping, folderId, uris := WalkFolders(syn, outdir, folders, mapping, folderId, before);
      MirrorRunStep(base, outdir, parentId, lines, i);
      output := output + [objectUri + "," + folderId.value];
    }
    assert lines[..|lines|] == lines;
  }

  /** The inner loop of lines 46-52, from the state `st` the outer loop
      has reached. */
  method WalkFolders(syn: Synapse, outdir: string, folders: seq<string>,
                     mapping0: map<string, string>, folderId0: Option<string>, ghost st: MirrorState)
    returns (mapping: map<string, string>, folderId: Option<string>, ghost uris: seq<string>)
    requires st.mapping == mapping0 && st.folderId == folderId0 && st.stored == syn.stored
    requires outdir in mapping0
    modifies syn
    ensures var w := Walk(st, outdir, folders);
      mapping == w.mapping && folderId == w.folderId && syn.stored == w.stored && uris == w.uris
  {
    mapping, folderId, uris := mapping0, folderId0, st.uris;
    var folderUri := outdir;
    for j := 0 to |folders|
      invariant folderUri == outdir + Nest(folders[..j])
      invariant Walk(st, outdir, folders[..j]) == MirrorState(mapping, folderId, syn.stored, uris, st.output)
    {
      WalkStep(st, outdir, folders, j);
      NestStep(outdir, folders, j);
      var folder := folders[j];
      var parent := mapping[folderUri];
      folderUri := folderUri + folder + "/";
      if folderUri !in mapping {
        var id := CreateFolder(syn, folder, parent);
        folderId := Some(id);
        mapping := mapping[folderUri := id];
        uris := uris + [folderUri];
      }
    }
    assert folders[..|folders|] == folders;
  }

  /** One more pass of the inner loop is one more `Descend`. */
  lemma WalkStep(st: MirrorState, root: string, folders: seq<string>, j: nat)
    requires root in st.mapping && j < |folders|
    ensures root + Nest(folders[..j]) in Walk(st, root, folders[..j]).mapping
    ensures Walk(st, root, folders[..j + 1])
         == Descend(Walk(st, root, folders[..j]), root + Nest(folders[..j]), folders[j])
  {
    assert folders[..j + 1][..j] == folders[..j];
  }
}
