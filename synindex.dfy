/** The indexing script `bin/synindex.py`: it computes the MD5 checksum of a
    local copy of an S3 object by reading it in 4096-byte chunks, splits the
    object's `s3://bucket/key` URI, registers an external S3 file handle for
    the object on Synapse, exposes that handle as a File entity under a
    parent, and prints `uri,entity_id`.

    The hash is abstract: a state type `S` with an incremental `update` and
    a final `hexdigest`. The two remote calls (`restPOST` and `store`) are
    functions from the record posted to the id the server assigns. */
module SynIndex {
  import opened Wrappers
  import opened Strings

  type byte = b: int | 0 <= b < 256

  // ---------------------------------------------------------------------
  // The S3 URI.
  // ---------------------------------------------------------------------

  const Scheme := "s3://"

  /** `re.fullmatch(r"s3://([^/]+)/(.*)", uri).groups()`, or None when the
      URI does not match. `[^/]+` cannot run past a `/`, so the bucket ends at
      the first `/` after the scheme; `.` does not match a line feed, so the
      key holds none. */
  function ParseS3Uri(uri: string): (r: Option<(string, string)>)
  {
    if |uri| < |Scheme| || uri[..|Scheme|] != Scheme then None
    else
      var rest := uri[|Scheme|..];
      var slash := Find(rest, '/');
      if slash <= 0 then None
      else if '\n' in rest[slash + 1..] then None
      else Some((rest[..slash], rest[slash + 1..]))
  }

  /** A bucket and key the pattern can produce: a non-empty bucket without
      `/`, and a key without a line feed. */
  predicate BucketAndKey(bucket: string, key: string) {
    bucket != [] && '/' !in bucket && '\n' !in key
  }

  /** Every successful parse is a valid bucket and key that rebuild the URI. */
  lemma ParseS3UriSound(uri: string)
    ensures var r := ParseS3Uri(uri);
      r.Some? ==>
        && BucketAndKey(r.value.0, r.value.1)
        && uri == Scheme + r.value.0 + "/" + r.value.1
  {
    if |uri| >= |Scheme| && uri[..|Scheme|] == Scheme {
      var rest := uri[|Scheme|..];
      FindSpec(rest, '/');
      var slash := Find(rest, '/');
      if slash > 0 {
        assert '/' !in rest[..slash] by {
          forall i | 0 <= i < slash ensures rest[..slash][i] != '/' {
            assert rest[..slash][i] == rest[i];
          }
        }
        assert rest == rest[..slash] + "/" + rest[slash + 1..];
        assert uri == uri[..|Scheme|] + rest;
      }
    }
  }

  /** Every valid bucket and key is found again in the URI built from them. */
  lemma ParseS3UriComplete(bucket: string, key: string)
    requires BucketAndKey(bucket, key)
    ensures ParseS3Uri(Scheme + bucket + "/" + key) == Some((bucket, key))
  {
    var uri := Scheme + bucket + "/" + key;
    assert uri[..|Scheme|] == Scheme;
    var rest := uri[|Scheme|..];
    assert rest == bucket + "/" + key;
    FindSpec(rest, '/');
    var slash := Find(rest, '/');
    assert rest[|bucket|] == '/';
    assert slash == |bucket|;
    assert rest[..slash] == bucket;
    assert rest[slash + 1..] == key;
  }

  /** The URI matches exactly when it is the scheme, a valid bucket, `/` and
      a valid key. */
  lemma ParseS3UriMatches(uri: string)
    ensures ParseS3Uri(uri).Some? <==>
      exists bucket: string, key: string | BucketAndKey(bucket, key) :: uri == Scheme + bucket + "/" + key
  {
    ParseS3UriSound(uri);
    if exists bucket: string, key: string | BucketAndKey(bucket, key) :: uri == Scheme + bucket + "/" + key {
      var bucket: string, key: string :| BucketAndKey(bucket, key) && uri == Scheme + bucket + "/" + key;
      ParseS3UriComplete(bucket, key);
    }
  }

  // ---------------------------------------------------------------------
  // The checksum.
  // ---------------------------------------------------------------------

  const ChunkSize := 4096

  /** `f.read(n)` on a regular file positioned at `pos`: the next `n` bytes,
      or fewer at the end of the file, or none once it is reached. */
  function Read(contents: seq<byte>, pos: nat, n: nat): (chunk: seq<byte>)
    requires pos <= |contents|
    ensures |chunk| <= n && pos + |chunk| <= |contents|
    ensures chunk == [] <==> n == 0 || pos == |contents|
    ensures contents[pos..] == chunk + contents[pos + |chunk|..]
  {
    var end := if |contents| - pos < n then |contents| else pos + n;
    assert contents[pos..] == contents[pos..end] + contents[end..];
    contents[pos..end]
  }

  /** The chunks `iter(lambda: f.read(4096), b"")` yields for a file holding
      `data`: the reads up to, not including, the first empty one. */
  function Chunks(data: seq<byte>): (chunks: seq<seq<byte>>)
    decreases |data|
  {
    if data == [] then []
    else
      var chunk := Read(data, 0, ChunkSize);
      [chunk] + Chunks(data[|chunk|..])
  }

  function Concat(chunks: seq<seq<byte>>): seq<byte> {
    if chunks == [] then [] else chunks[0] + Concat(chunks[1..])
  }

  /** The chunks put back together are the file, none is empty, and every one
      but the last is a full 4096 bytes. */
  lemma {:induction false} ChunksSpec(data: seq<byte>)
    ensures var chunks := Chunks(data);
      && Concat(chunks) == data
      && (forall i | 0 <= i < |chunks| :: 0 < |chunks[i]| <= ChunkSize)
      && (forall i | 0 <= i < |chunks| - 1 :: |chunks[i]| == ChunkSize)
      && |chunks| == (|data| + ChunkSize - 1) / ChunkSize
    decreases |data|
  {
    if data != [] {
      var chunk := Read(data, 0, ChunkSize);
      ChunksSpec(data[|chunk|..]);
      var chunks := Chunks(data);
      assert chunks[1..] == Chunks(data[|chunk|..]);
      if |data| > ChunkSize {
        assert |chunk| == ChunkSize;
      }
    }
  }

  /** Feeding the chunks to `update` one after the other, from state `s`. */
  function Fold<S>(update: (S, seq<byte>) -> S, s: S, chunks: seq<seq<byte>>): S
    decreases |chunks|
  {
    if chunks == [] then s else Fold(update, update(s, chunks[0]), chunks[1..])
  }

  /** `hash.update(a); hash.update(b)` has the effect of `hash.update(a + b)`,
      and an empty update changes nothing: the contract of an incremental
      hash such as MD5. */
  ghost predicate Incremental<S(!new)>(update: (S, seq<byte>) -> S) {
    && (forall s: S :: update(s, []) == s)
    && (forall s: S, a: seq<byte>, b: seq<byte> :: update(update(s, a), b) == update(s, a + b))
  }

  /** For an incremental hash, folding the chunks of any split is one update
      with their concatenation. */
  lemma {:induction false} FoldConcat<S(!new)>(update: (S, seq<byte>) -> S, s: S, chunks: seq<seq<byte>>)
    requires Incremental(update)
    ensures Fold(update, s, chunks) == update(s, Concat(chunks))
    decreases |chunks|
  {
    if chunks != [] {
      FoldConcat(update, update(s, chunks[0]), chunks[1..]);
      assert update(update(s, chunks[0]), Concat(chunks[1..])) == update(s, chunks[0] + Concat(chunks[1..]));
    }
  }

  /** The checksum is the digest of the whole file, however it was read. */
  lemma ChecksumIsDigestOfContents<S(!new)>(update: (S, seq<byte>) -> S, init: S, contents: seq<byte>)
    requires Incremental(update)
    ensures Fold(update, init, Chunks(contents)) == update(init, contents)
  {
    ChunksSpec(contents);
    FoldConcat(update, init, Chunks(contents));
  }

  /** Lines 32-36: read the file 4096 bytes at a time until a read comes back
      empty, feeding each chunk to the hash, then take the hex digest. */
  method Checksum<S>(contents: seq<byte>, init: S, update: (S, seq<byte>) -> S, hexdigest: S -> string)
    returns (checksum: string)
    ensures checksum == hexdigest(Fold(update, init, Chunks(contents)))
  {
    var hash := init;
    var pos := 0;
    while true
      invariant pos <= |contents|
      invariant Fold(update, hash, Chunks(contents[pos..])) == Fold(update, init, Chunks(contents))
      decreases |contents| - pos
    {
      var chunk := Read(contents, pos, ChunkSize);
      if chunk == [] {
        break;
      }
      assert Read(contents[pos..], 0, ChunkSize) == chunk;
      assert contents[pos..][|chunk|..] == contents[pos + |chunk|..];
      hash := update(hash, chunk);
      pos := pos + |chunk|;
    }
    assert contents[pos..] == [];
    checksum := hexdigest(hash);
  }

  // ---------------------------------------------------------------------
  // The file handle, the File entity and the output line.
  // ---------------------------------------------------------------------

  const S3FileHandleType := "org.sagebionetworks.repo.model.file.S3FileHandle"

  /** The record posted to `/externalFileHandle/s3`. */
  datatype FileHandle = FileHandle(
    concreteType: string,
    storageLocationId: string,
    fileName: string,
    contentMd5: string,
    bucketName: string,
    key: string)

  /** The File entity stored to expose the handle. */
  datatype FileEntity = FileEntity(name: string, parentId: string, dataFileHandleId: string)

  /** What a run leaves behind: the handle posted, the entity stored and the
      line printed. */
  datatype Indexed = Indexed(handle: FileHandle, entity: FileEntity, line: string)

  /** How a run can stop early: an attribute the argument namespace lacks, or
      a URI the pattern does not match (`.groups()` on None). */
  datatype IndexError = MissingAttribute(name: string) | NoMatch(uri: string)

  /** Lines 40-49: the file-handle record for the local file `file` with
      checksum `checksum`, for the object at `uri`; None when the URI does
      not match. */
  function MakeFileHandle(storageId: string, file: string, checksum: string, uri: string): (r: Option<FileHandle>)
  {
    match ParseS3Uri(uri)
    case None => None
    case Some((bucket, key)) => Some(FileHandle(S3FileHandleType, storageId, Basename(file), checksum, bucket, key))
  }

  /** The record exists exactly for the URIs that match, and carries the
      parsed bucket and key, the checksum, the storage location and the
      file's basename; the bucket and key rebuild the URI. */
  lemma MakeFileHandleSpec(storageId: string, file: string, checksum: string, uri: string)
    ensures var r := MakeFileHandle(storageId, file, checksum, uri);
      && (r.Some? <==> ParseS3Uri(uri).Some?)
      && (r.Some? ==>
          && r.value.concreteType == S3FileHandleType
          && r.value.storageLocationId == storageId
          && r.value.fileName == Basename(file) && '/' !in r.value.fileName
          && r.value.contentMd5 == checksum
          && (r.value.bucketName, r.value.key) == ParseS3Uri(uri).value
          && uri == Scheme + r.value.bucketName + "/" + r.value.key)
  {
    ParseS3UriSound(uri);
    BasenameSpec(file);
  }

  /** The argument namespace `parse_args` returns: one attribute per option,
      named after it. Options left off the command line are not modelled. */
  type Namespace = map<string, string>

  function ParserDests(): set<string> {
    {"storage_id", "file", "uri", "parent_id", "config"}
  }

  /** `getattr(args, name)`. */
  function GetAttr(args: Namespace, name: string): (r: Result<string, IndexError>)
    ensures r.Success? <==> name in args
  {
    if name in args then Success(args[name]) else Failure(MissingAttribute(name))
  }

  /** The URI as lines 41 and 62 read it: `args.s3_uri`. */
  function UriArgAsWritten(args: Namespace): Result<string, IndexError> {
    GetAttr(args, "s3_uri")
  }

  /** The URI as the option is declared on line 15: `args.uri`. */
  function UriArg(args: Namespace): Result<string, IndexError> {
    GetAttr(args, "uri")
  }

  /** No namespace the parser builds has an `s3_uri` attribute. */
  lemma UriArgAsWrittenFails(args: Namespace)
    requires args.Keys == ParserDests()
    ensures UriArgAsWritten(args) == Failure(MissingAttribute("s3_uri"))
  {
    assert "s3_uri"[1] != "storage_id"[1] && |"s3_uri"| != |"file"| && "s3_uri"[0] != "uri"[0];
    assert "s3_uri"[0] != "parent_id"[0] && "s3_uri"[0] != "config"[0];
  }

  /** Every namespace the parser builds has a `uri` attribute. */
  lemma UriArgFound(args: Namespace)
    requires args.Keys == ParserDests()
    ensures UriArg(args) == Success(args["uri"])
  {
  }

  /** Lines 40-62 after the checksum, reading the URI as written: the run
      stops with an AttributeError before anything is posted. */
  function IndexAsWritten(args: Namespace, checksum: string,
                          post: FileHandle -> string, store: FileEntity -> string): Result<Indexed, IndexError>
    requires args.Keys == ParserDests()
  {
    match UriArgAsWritten(args)
    case Failure(e) => Failure(e)
    case Success(uri) => IndexUri(args, uri, checksum, post, store)
  }

  /** Lines 40-62 after the checksum, reading the URI from `--uri`. `post`
      is the id the server gives the posted handle, `store` the id it gives
      the stored entity. */
  function Index(args: Namespace, checksum: string,
                 post: FileHandle -> string, store: FileEntity -> string): Result<Indexed, IndexError>
    requires args.Keys == ParserDests()
  {
    match UriArg(args)
    case Failure(e) => Failure(e)
    case Success(uri) => IndexUri(args, uri, checksum, post, store)
  }

  function IndexUri(args: Namespace, uri: string, checksum: string,
                    post: FileHandle -> string, store: FileEntity -> string): Result<Indexed, IndexError>
    requires args.Keys == ParserDests()
  {
    match MakeFileHandle(args["storage_id"], args["file"], checksum, uri)
    case None => Failure(NoMatch(uri))
    case Some(handle) =>
      var entity := FileEntity(handle.fileName, args["parent_id"], post(handle));
      Success(Indexed(handle, entity, uri + "," + store(entity)))
  }

  /** As written, every run fails on the missing `s3_uri` attribute. */
  lemma IndexAsWrittenFails(args: Namespace, checksum: string,
                            post: FileHandle -> string, store: FileEntity -> string)
    requires args.Keys == ParserDests()
    ensures IndexAsWritten(args, checksum, post, store) == Failure(MissingAttribute("s3_uri"))
  {
    UriArgAsWrittenFails(args);
  }

  /** Reading `--uri`, a run succeeds exactly when the URI matches. It then
      posts the handle for the parsed bucket and key, stores a File named
      after the file, under `--parent_id`, pointing at the id the post
      returned, and prints the URI and the stored entity's id. A URI that
      does not match stops the run before anything is posted or stored. */
  lemma IndexSpec(args: Namespace, checksum: string,
                  post: FileHandle -> string, store: FileEntity -> string)
    requires args.Keys == ParserDests()
    ensures var r := Index(args, checksum, post, store);
      && (r.Success? <==> ParseS3Uri(args["uri"]).Some?)
      && (r.Failure? ==> r.error == NoMatch(args["uri"]))
      && (r.Success? ==>
          && r.value.handle == MakeFileHandle(args["storage_id"], args["file"], checksum, args["uri"]).value
          && r.value.entity == FileEntity(Basename(args["file"]), args["parent_id"], post(r.value.handle))
          && r.value.line == args["uri"] + "," + store(r.value.entity))
  {
    UriArgFound(args);
    MakeFileHandleSpec(args["storage_id"], args["file"], checksum, args["uri"]);
  }
}
