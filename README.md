# nf-synindex core, in Dafny

This project models the two Python scripts at the heart of nf-synindex. The
scripts index objects stored in S3 buckets into Synapse.

- `bin/synmirror.py` reads a list of S3 object URIs. For each object it
  walks the segments of the object's directory, with `outdir` removed, under
  a root folder. It creates one Synapse folder per folder URI it has not
  seen before, remembering the ids in a `mapping` from folder URI to Synapse
  id. For each object it prints the object URI followed by a folder id. For
  an object directly under `outdir` the walk does not stay at the root (see
  "## Findings").
- `bin/synindex.py` computes the MD5 checksum of a local copy of one object,
  reading it 4096 bytes at a time. It splits the object's `s3://bucket/key`
  URI, posts an external S3 file-handle record for the object, stores a
  Synapse File entity that points at the handle, and prints `uri,entity_id`.

Files:

- `wrappers.dfy` holds `Option` and `Result`.
- `strings.dfy` (module `Strings`) models the pieces of Python's `str` and
  `posixpath` that the scripts use: `rstrip()`, `os.path.split`,
  `os.path.basename`, `replace(pat, "")` and `split("/")`, with its inverse
  `join`.
- `synmirror.dfy` (module `SynMirror`) models the mirroring loop. The remote
  catalog is the class `Synapse`, whose `Store` appends an entity and
  returns a fresh id. The loop itself is the method `Mirror`, proved equal
  to the specification function `MirrorRun`. The lemmas about the loop are
  stated over `MirrorRun`.
- `synindex.dfy` (module `SynIndex`) models the indexing script: the URI
  parser, the chunked checksum loop (the method `Checksum`, over an abstract
  incremental hash), and the assembly of the handle, the entity and the
  output line.

Python's `.` does not match a line feed, so the key group `(.*)` of the URI
pattern accepts only keys without one. The model follows this regular
expression semantics. It does not follow the looser reading "then anything".

## Model

| member | source | states |
|---|---|---|
| Strings.RStrip | bin/synmirror.py:43 | `line.rstrip()`: drops trailing Python whitespace and never lengthens the line; what it keeps and cuts is pinned by `RStripSpec` |
| Strings.RStripSpec | bin/synmirror.py:43 | `line.rstrip()` is the longest prefix of the line that does not end in whitespace (Python's `isspace` set), and everything it cuts off is whitespace |
| Strings.PathSplit | bin/synmirror.py:44 | posixpath's `os.path.split`: the text after the last `/`, and the text before it with trailing slashes removed unless it is all slashes; pinned by `PathSplitSpec` |
| Strings.PathSplitSpec | bin/synmirror.py:44 | `os.path.split`: the tail is the basename and the head is a prefix of the path with only slashes between head and tail. The head is empty exactly when the path has no `/`, and it ends in `/` only when it is all slashes, in which case it is the whole run of slashes up to the last `/` |
| Strings.RemoveAll | bin/synmirror.py:45 | `replace(outdir, "")`: a left-to-right scan deleting every non-overlapping occurrence, never lengthening the string; an empty pattern changes nothing |
| Strings.RemoveAllAbsent | bin/synmirror.py:45 | `replace(outdir, "")` leaves a string without an occurrence of `outdir` unchanged |
| Strings.RemoveAllStripsLonePrefix | bin/synmirror.py:45 | when `outdir` heads the string and does not occur again, `replace` removes just that prefix |
| Strings.RemoveAllFirstOccurrence | bin/synmirror.py:45 | the general step of `replace(outdir, "")`: the text before the first occurrence of `outdir` is kept, that occurrence is deleted, and the rest is scanned again from just after it |
| Strings.RemoveAllKeepsPrefix | bin/synmirror.py:45 | a prefix in which no occurrence of `outdir` starts passes through `replace` unchanged |
| Strings.Split | bin/synmirror.py:47 | `split("/")` yields at least one segment, no segment holds `/`, and joining the segments with `/` gives the string back |
| Strings.SplitJoin | bin/synmirror.py:47 | `split` inverts `join` on non-empty lists of `/`-free segments |
| Strings.Nest | bin/synmirror.py:46-49 | the text the inner loop appends to `folder_uri`: each segment followed by `/`; its properties are `NestStep` and `NestSplit` |
| Strings.NestStep | bin/synmirror.py:49 | each inner iteration appends the segment and a `/` to the running folder URI |
| Strings.NestSplit | bin/synmirror.py:45-49 | walking all the segments of `relhead.split("/")` appends exactly `relhead + "/"` to `outdir` |
| Strings.Basename | bin/synindex.py:40 | `os.path.basename`: the text after the last `/`, never longer than the path; pinned by `BasenameSpec` |
| Strings.BasenameSpec | bin/synindex.py:40 | `os.path.basename` is the suffix of the path that holds no `/` and is either the whole path or follows a `/` |
| Strings.BasenameOfJoin | bin/synindex.py:40 | the basename of `dir + "/" + name` is `name`, for any `name` without `/` |
| SynMirror.EntityId | bin/synmirror.py:35-36 | the id the catalog returns for the `k`-th entity it stores, `syn` followed by `k` in decimal; distinct by `EntityIdInjective` |
| SynMirror.EntityIdInjective | bin/synmirror.py:35-36 | distinct positions in the catalog get distinct ids |
| SynMirror.Synapse.Store | bin/synmirror.py:35-36 | storing an entity appends it to the catalog and returns the id of its position |
| SynMirror.CreateFolder | bin/synmirror.py:29-36 | `create_folder` stores exactly one folder record with the given name, the Folder concrete type and the given parent, and returns its new id |
| SynMirror.Descend | bin/synmirror.py:48-52 | one inner iteration: the extended URI becomes a key, no existing key is removed or rebound, at most that one key is added, the catalog only grows and nothing is printed |
| SynMirror.Walk | bin/synmirror.py:46-52 | the inner loop: every URI it reaches, including the last, is a key when looked up, and `mapping` only grows. Starting from the initial `mapping`, a non-empty walk always assigns `folder_id` |
| SynMirror.Segments | bin/synmirror.py:43-47 | the inner loop always runs at least once, because `split` is never empty, and no segment it walks holds `/` |
| SynMirror.MirrorLine | bin/synmirror.py:42-53 | one outer iteration prints exactly `object_uri + "," + folder_id`, and `folder_id` is bound at that point |
| SynMirror.MirrorLines | bin/synmirror.py:40-53 | one output line per input line, in order; `outdir` stays a key and `mapping` only grows; `folder_id` is bound once a line has been read |
| SynMirror.Start | bin/synmirror.py:40 | the state before the first line: `mapping = {outdir: parent_id}`, `folder_id` unbound, nothing created or printed |
| SynMirror.MirrorRun | bin/synmirror.py:40-53 | the whole script over the lines of the objects file, from `Start`; its properties are the `MirrorRun…` and whole-run lemmas below |
| SynMirror.Mirror | bin/synmirror.py:40-53 | the imperative loop prints, builds `mapping` and stores folders exactly as `MirrorRun` specifies |
| SynMirror.WalkFolders | bin/synmirror.py:46-52 | the imperative inner loop updates `mapping`, `folder_id` and the catalog exactly as `Walk` specifies; every `mapping[folder_uri]` lookup succeeds |
| SynMirror.MirrorRunValid | bin/synmirror.py:40-53 | after any number of lines the run keeps its invariant: `outdir` maps to `parent_id`, every other key has exactly one `create_folder` call made for it, and `folder_id` is the id of the latest call |
| SynMirror.CreateFolderOncePerUri | bin/synmirror.py:40-52 | `create_folder` is called once per distinct folder URI and for nothing else: the number of calls is `len(mapping) - 1`, and the calls are appended after what the catalog held before |
| SynMirror.NewFolderUnderParent | bin/synmirror.py:40-52 | each created folder has the bare segment as its name, a name without `/`, and sits under the id mapped to the URI one segment shorter; its id is the value of its URI's key; `outdir` keeps `parent_id` |
| SynMirror.KeysEndInSlash | bin/synmirror.py:49-52 | every key other than `outdir` ends in `/` |
| SynMirror.MirrorRunGrows | bin/synmirror.py:50-53 | reading more lines never removes or rebinds a key, and only appends to the catalog and to the output |
| SynMirror.LastLinePrintsLatestId | bin/synmirror.py:51-53 | the line printed last carries the id of the most recent `create_folder` call |
| SynMirror.MirrorOutputAt | bin/synmirror.py:42-53 | the `i`-th printed line is the `i`-th stripped input line with the id of the latest `create_folder` call made by the end of that line |
| SynMirror.ContainingUri | bin/synmirror.py:43-49 | `folder_uri` after the inner loop: `outdir`, then the head with `outdir` removed, then `/`; it is the URI the inner loop ends at, which is not the folder the object sits in when the object is directly under `outdir` (`TopLevelWalksOwnHead`) |
| SynMirror.LineReachesContainingUri | bin/synmirror.py:44-49 | after the inner loop, `folder_uri` is `outdir + head.replace(outdir, "") + "/"`, and it is a key |
| SynMirror.WalkAddsShorterKeys | bin/synmirror.py:46-52 | the keys the inner loop adds are no longer than the URI it ends at |
| SynMirror.WalkCreatesDeepest | bin/synmirror.py:49-52 | when the inner loop creates the folder it ends at, `folder_id` is that folder's id |
| SynMirror.DeepestCreatedIsPrinted | bin/synmirror.py:51-53 | a line whose inner loop ends at a URI that was not yet a key prints `mapping[folder_uri]`, the id created for the URI the inner loop ends at |
| SynMirror.IntendedOutput | bin/synmirror.py:53 | the intended print gives one line per input line |
| SynMirror.IntendedOutputNamesContainingFolder | bin/synmirror.py:49-53 | with the intended print, every line names the id the final `mapping` holds for the URI the line's inner loop ends at, a URI other than `outdir` |
| SynMirror.IntendedOutputLast | bin/synmirror.py:49-53 | the intended line for the last object names the id the final `mapping` holds for the URI that line's inner loop ends at |
| SynMirror.StaleIdAfterSibling | bin/synmirror.py:50-53 | in a run from an empty catalog, for any three lines whose segments are `[a]`, `[b]`, `[a]`, the third is printed with the second folder's id (`syn1`), while the URI its inner loop ends at maps to the first id (`syn0`) |
| SynMirror.StalePrintedId | bin/synmirror.py:50-53 | for the objects `r/a/x`, `r/b/y`, `r/a/z` under `r/`, the third line is printed as `r/a/z,syn1`, but `r/a/`, the folder it sits in, has the id `syn0` |
| SynMirror.TopLevelWalksOwnHead | bin/synmirror.py:44-49 | for an object directly under `outdir`, `replace` leaves the head whole, since it is shorter than `outdir`. The inner loop walks the segments of `outdir` without its last `/` and ends at `outdir + outdir`, not at `outdir` |
| SynMirror.TopLevelObjectAsWritten | bin/synmirror.py:44-53 | the run on the single object `r/x` with `--outdir r/` creates a folder `r` under the root at `r/r/` and prints `r/x,syn0` |
| SynMirror.IntendedSegments | bin/synmirror.py:45-47 | the segments the loop evidently means to walk: none for an object directly under `outdir`, otherwise those the script walks; none holds `/` |
| SynMirror.IntendedMirrorLine | bin/synmirror.py:42-53 | the corrected outer iteration prints one line, keeps `outdir` as a key and only grows `mapping` |
| SynMirror.IntendedMirrorLines | bin/synmirror.py:40-53 | the corrected outer loop prints one line per input line, in order, and only grows `mapping` |
| SynMirror.IntendedRun | bin/synmirror.py:40-53 | the whole run with both corrections, from `Start`; its properties are the `Intended…` lemmas below |
| SynMirror.IntendedTopLevelLine | bin/synmirror.py:44-53 | as intended, an object directly under `outdir` creates no folder, leaves `mapping` and the catalog as they are, and is printed with `outdir`'s id |
| SynMirror.IntendedBelowRoot | bin/synmirror.py:44-53 | for every other object the corrected line creates exactly the folders and keys the script creates, and prints the id of the URI its inner loop ends at |
| SynMirror.IntendedTopLevelPrintsRoot | bin/synmirror.py:40-53 | in a whole corrected run, every object directly under `outdir` is printed with the root id `parent_id` |
| SynMirror.TopLevelObjectIntended | bin/synmirror.py:40-53 | the corrected run on the single object `r/x` with `--outdir r/` creates nothing and prints `r/x,ROOT` |
| SynIndex.ParseS3Uri | bin/synindex.py:41 | `re.fullmatch(r"s3://([^/]+)/(.*)", uri).groups()`, with `None` for no match; pinned by the three lemmas below |
| SynIndex.ParseS3UriSound | bin/synindex.py:41 | a successful parse yields a non-empty bucket without `/` and a key without a line feed, and `"s3://" + bucket + "/" + key` rebuilds the URI |
| SynIndex.ParseS3UriComplete | bin/synindex.py:41 | every such bucket and key is parsed back out of the URI built from them |
| SynIndex.ParseS3UriMatches | bin/synindex.py:41 | the URI matches if and only if it is `s3://`, a non-empty run of non-`/` characters, `/`, and a key without a line feed |
| SynIndex.Read | bin/synindex.py:34 | `f.read(4096)` returns at most 4096 bytes, returns nothing exactly at the end of the file, and the bytes it returns are the next ones of the file |
| SynIndex.Chunks | bin/synindex.py:33-35 | the chunks `iter(lambda: f.read(4096), b"")` yields for a file, in order; pinned by `ChunksSpec` |
| SynIndex.ChunksSpec | bin/synindex.py:33-35 | the chunks read before the first empty read concatenate to the file; none is empty or longer than 4096 bytes, every one but the last is exactly 4096 bytes, and their number is the size divided by 4096, rounded up |
| SynIndex.FoldConcat | bin/synindex.py:35 | for an incremental hash, updating with the chunks one by one is one update with their concatenation |
| SynIndex.ChecksumIsDigestOfContents | bin/synindex.py:32-36 | the hash fed chunk by chunk is the hash of the whole file contents |
| SynIndex.Checksum | bin/synindex.py:32-36 | the loop stops at the first empty read and returns the hex digest of the state after updating with every chunk, in order |
| SynIndex.MakeFileHandle | bin/synindex.py:40-49 | the file-handle record of lines 42-49, or `None` when the URI does not match; pinned by `MakeFileHandleSpec` |
| SynIndex.MakeFileHandleSpec | bin/synindex.py:40-49 | a handle record exists exactly when the URI matches. It carries the S3 file-handle type, the `storage_id` argument, the basename of the local file, the checksum, and the parsed bucket and key, which rebuild the URI |
| SynIndex.GetAttr | bin/synindex.py:15 | reading an attribute of the argument namespace succeeds exactly when the namespace has it, and fails with an AttributeError otherwise |
| SynIndex.UriArgAsWrittenFails | bin/synindex.py:12-18 | no namespace the parser builds has an `s3_uri` attribute, the one line 41 reads |
| SynIndex.UriArgFound | bin/synindex.py:15 | every namespace the parser builds has a `uri` attribute |
| SynIndex.IndexAsWritten | bin/synindex.py:40-62 | the script as written, reading the `s3_uri` attribute at lines 41 and 62; its outcome is `IndexAsWrittenFails` |
| SynIndex.Index | bin/synindex.py:40-62 | the script reading `--uri`: parse, post the handle, store the File, print; its outcome is `IndexSpec` |
| SynIndex.IndexUri | bin/synindex.py:41-62 | the part of the script shared by `Index` and `IndexAsWritten`, from the URI on: parse, post the handle, store the File, print; its outcome is stated by `IndexSpec` |
| SynIndex.IndexAsWrittenFails | bin/synindex.py:41 | as written, every run stops with an AttributeError before a handle is posted or an entity stored |
| SynIndex.IndexSpec | bin/synindex.py:40-62 | reading `--uri`, a run succeeds exactly when the URI matches, and a URI that does not match stops it before anything is posted. On success it posts the record above and stores a File named after the file, under `--parent_id`, pointing at the id the post returned. It prints `uri + "," + entity_id` |

## Left out

- Logging in to Synapse, the environment-variable assertion and the config file (bin/synmirror.py:19-25, bin/synindex.py:21-27) are authentication plumbing and are not modelled.
- Argument parsing is not modelled. `Mirror` takes `outdir` and `parentId` as strings. `Index` takes a namespace holding one string per option. An option left off the command line (a `None` value) is not modelled.
- Reading the objects file and the local file, and printing, are I/O. The model takes the file's lines, with their line endings, and the file's bytes as given sequences; the printed lines are returned.
- `syn.store` and `syn.restPOST` are remote calls. Storing a folder is modelled by `Synapse.Store`, which hands out the ids `syn0`, `syn1`, … in order. The real server's ids are opaque strings; the model's ids are distinct for distinct positions, as real ids are.
- A failing remote call is not modelled. In the source, `syn.store` (bin/synmirror.py:35, bin/synindex.py:61) or `syn.restPOST` (bin/synindex.py:50) raising an exception ends the run, after the lines already printed. In the model `Synapse.Store` and the `post` and `store` parameters of `Index` always return an id, so a rejected folder creation or upload, and the partial output it leaves, are outside the model.
- In the indexing script the two remote calls are functions from the record sent to the id returned. The model assumes the posted handle comes back with the same `fileName` and an `id`; the server's other fields are not modelled.
- MD5 is a foreign library. It is an abstract hash state with `update` and `hexdigest`. That the chunked result equals the hash of the whole file is proved under the incremental-update property of such a hash (`Incremental`), not for MD5 itself.
- `Read` models a regular file, which returns a full 4096 bytes until the last read. Short reads from pipes or sockets are not modelled.
- SynMirror.MirrorOutputAt: states the output one line at a time, for a given index `i`, rather than as one quantified statement over all lines.
- An `outdir` given without a trailing `/` is not normalised. `TopLevel` and the corrected run assume an `outdir` that ends in `/`, as the keys of `mapping` do; with any other `outdir` the corrected run walks what the script walks.
- `bin/register_bucket.py` and `bin/get_user_id.py` are not part of this model. Each is a single remote call and a print.

## Findings

| source | as written | input that shows it | evidently intended | confidence | as-written member | corrected member |
|---|---|---|---|---|---|---|
| bin/synmirror.py:51-53 | prints `folder_id`, the id of the most recent `create_folder` call of the whole run, even when this line created no folder | objects `r/a/x`, `r/b/y`, `r/a/z` with `--outdir r/`: the third line prints `r/a/z,syn1`, the id of `r/b/`, though the object sits in `r/a/` (id `syn0`) | print `mapping[folder_uri]`, the id of the URI this line's inner loop ends at (`r/a/` for `r/a/z`) | medium, not executed | SynMirror.StalePrintedId | SynMirror.IntendedOutputNamesContainingFolder |
| bin/synindex.py:41 | lines 41 and 62 read `args.s3_uri`, but the parser only defines `--uri` (line 15), so the attribute does not exist | any command line, e.g. `--uri s3://bucket/key` with the other options: AttributeError at line 41 before anything is posted | read `args.uri` | high, not executed | SynIndex.IndexAsWrittenFails | SynIndex.IndexSpec |
| bin/synmirror.py:44-47 | `head.replace(outdir, "")` removes nothing from the head of an object directly under `outdir`, because that head is `outdir` without its last `/`. The loop then walks the head's own segments below `outdir` | `--outdir r/` and the object `r/x`: the loop creates a folder `r` under the root at `r/r/` and prints `r/x,syn0` | an empty relative path: no folder is created and the line names the root id, `r/x,ROOT` | medium, not executed | SynMirror.TopLevelObjectAsWritten | SynMirror.IntendedTopLevelPrintsRoot |
