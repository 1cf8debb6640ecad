/**
 The block container (src/dzfile-intern.cc): a tag naming the compressor and one dataset per
 compressed block. HDF5 is a finite map from dataset name to bytes; the compressors are a
 record of functions that the theorems assume lossless.
 */
module Container {
  import opened CStrings
  import opened DatasetNames

  const H5_BUFSIZE := 4194304
  const TAG_LIMIT := 1024

  type Sets = map<string, Bytes>

  datatype Alg = Zlib | Zstd | Isal | Unknown

  /** The compression libraries: their functions and their version strings. */
  datatype Codec = Codec(compress: (Alg, Bytes) -> Bytes,
                         decompress: (Alg, Bytes) -> Option<Bytes>,
                         version: Alg -> string)

  predicate Writes(a: Alg) {
    a.Zlib? || a.Zstd?
  }

  /** What the theorems ask of the libraries. */
  ghost predicate Sound(k: Codec) {
    && (forall a, x {:trigger k.compress(a, x)} :: Writes(a) && |x| > 0 ==>
          |k.compress(a, x)| > 0 && k.decompress(a, k.compress(a, x)) == Some(x))
    && (forall a {:trigger k.version(a)} :: |k.version(a)| <= 1018)
  }

  /** Compressors that lose nothing, and version strings of a sane length, are all that is asked. */
  lemma LosslessIsSound(k: Codec)
    requires forall x {:trigger k.compress(Zlib, x)} :: |x| > 0 ==>
               |k.compress(Zlib, x)| > 0 && k.decompress(Zlib, k.compress(Zlib, x)) == Some(x)
    requires forall x {:trigger k.compress(Zstd, x)} :: |x| > 0 ==>
               |k.compress(Zstd, x)| > 0 && k.decompress(Zstd, k.compress(Zstd, x)) == Some(x)
    requires forall a {:trigger k.version(a)} :: |k.version(a)| <= 1018
    ensures Sound(k)
  {
  }

  /** There are such libraries. */
  lemma SomeCodec() returns (k: Codec)
    ensures Sound(k)
  {
    k := Codec((_, x) => x, (_, x) => Some(x), _ => "1.5.5");
    LosslessIsSound(k);
  }

  // ----- the tag -----

  function AlgName(a: Alg): string {
    match a
    case Zlib => "zlib"
    case Zstd => "zstd"
    case Isal => "isal"
    case Unknown => ""
  }

  /** sprintf(version, "zstd %s", ZSTD_versionString()). */
  function Tag(k: Codec, a: Alg): Bytes {
    AlgName(a) + " " + k.version(a)
  }

  /** The text of a char buffer: what strlen counts. */
  function CText(buffer: Bytes): string {
    buffer[..FirstIndex(buffer, NUL, 0)]
  }

  function ParseTag(tag: Bytes): Alg {
    var text := CText(tag);
    var name := text[..FirstIndex(text, ' ', 0)];
    if name == "zlib" then Zlib
    else if name == "zstd" then Zstd
    else if name == "isal" then Isal
    else Unknown
  }

  /** getAlgorithm: the tag must be there and be shorter than the read buffer. */
  function AlgorithmOf(sets: Sets): Alg {
    if ALGORITHM in sets && |sets[ALGORITHM]| < TAG_LIMIT then ParseTag(sets[ALGORITHM]) else Unknown
  }

  /** The name of a tag ends at its first space, whatever follows. */
  lemma FirstWord(name: string, rest: string)
    requires ' ' !in name && NUL !in name
    ensures var text := CText(name + " " + rest); text[..FirstIndex(text, ' ', 0)] == name
  {
    var s := name + " " + rest;
    var text := CText(s);
    assert s[|name|] == ' ' && forall i :: 0 <= i < |name| ==> s[i] == name[i];
    assert |text| > |name| && text[|name|] == ' ' && forall i :: 0 <= i < |name| ==> text[i] == name[i];
    assert FirstIndex(text, ' ', 0) == |name|;
  }

  /** The tag begins with this name, and that ends there: with the tag, a space or a NUL. */
  predicate Opens(tag: Bytes, name: string) {
    && |name| <= |tag| && tag[..|name|] == name
    && (|tag| == |name| || tag[|name|] == ' ' || tag[|name|] == '\0')
  }

  /** Which tags name a method. */
  lemma ParseIff(tag: Bytes, name: string)
    requires ' ' !in name && NUL !in name
    ensures var text := CText(tag); text[..FirstIndex(text, ' ', 0)] == name <==> Opens(tag, name)
  {
    var text := CText(tag);
    var word := text[..FirstIndex(text, ' ', 0)];
    assert word == tag[..|word|];
    assert |word| < |tag| ==> tag[|word|] == ' ' || tag[|word|] == NUL;
    assert forall i :: 0 <= i < |word| ==> tag[i] != ' ' && tag[i] != NUL;
    assert Opens(tag, name) ==> forall i :: 0 <= i < |name| ==> tag[i] == name[i];
  }

  /** The tags the reader accepts: shorter than 1024 bytes, and opening with the name of a method. */
  lemma AlgorithmIff(sets: Sets)
    ensures var read := "algorithm" in sets && |sets["algorithm"]| < 1024;
            && (AlgorithmOf(sets) == Zlib <==> read && Opens(sets["algorithm"], "zlib"))
            && (AlgorithmOf(sets) == Zstd <==> read && Opens(sets["algorithm"], "zstd"))
            && (AlgorithmOf(sets) == Isal <==> read && Opens(sets["algorithm"], "isal"))
  {
    if ALGORITHM in sets {
      var tag := sets[ALGORITHM];
      ParseIff(tag, "zlib");
      ParseIff(tag, "zstd");
      ParseIff(tag, "isal");
      assert "zlib"[1] == 'l' && "zstd"[1] == 's' && "isal"[0] == 'i';
    }
  }

  /** The tags the writer writes. */
  lemma TagText(k: Codec)
    ensures Tag(k, Zlib) == "zlib " + k.version(Zlib) && Tag(k, Zstd) == "zstd " + k.version(Zstd)
  {
    assert "zlib" + " " == "zlib " && "zstd" + " " == "zstd ";
  }

  /** A tag the writer wrote names the method it was written for. */
  lemma TagParsesBack(k: Codec, a: Alg)
    requires Writes(a)
    ensures ParseTag(Tag(k, a)) == a
  {
    FirstWord(AlgName(a), k.version(a));
    assert "zlib"[1] == 'l' && "zstd"[1] == 's' && "isal"[0] == 'i';
  }

  /** getAlgorithm: strlen, then the scan that ends the name at the first space. */
  method GetAlgorithm(sets: Sets) returns (a: Alg)
    ensures a == AlgorithmOf(sets)
    ensures "algorithm" !in sets || |sets["algorithm"]| >= 1024 ==> a == Unknown
    ensures "algorithm" in sets && |sets["algorithm"]| < 1024 ==>
              && (a == Zlib <==> Opens(sets["algorithm"], "zlib"))
              && (a == Zstd <==> Opens(sets["algorithm"], "zstd"))
              && (a == Isal <==> Opens(sets["algorithm"], "isal"))
  {
    AlgorithmIff(sets);
    if ALGORITHM !in sets || |sets[ALGORITHM]| >= TAG_LIMIT {
      return Unknown;
    }
    var algorithm := CText(sets[ALGORITHM]);
    var len := |algorithm|;
    for i := 0 to |algorithm|
      invariant len == |algorithm|
      invariant forall j :: 0 <= j < i ==> algorithm[j] != ' '
    {
      if algorithm[i] == ' ' {
        len := i;
        break;
      }
    }
    assert len == FirstIndex(algorithm, ' ', 0);
    algorithm := algorithm[..len];
    a := Unknown;
    if algorithm == "zlib" { a := Zlib; }
    if algorithm == "zstd" { a := Zstd; }
    if algorithm == "isal" { a := Isal; }
  }

  // ----- the blocks -----

  /** A container holding these chunks of a file, as the writer builds it. */
  function Box(k: Codec, a: Alg, chunks: seq<Bytes>): Sets {
    if |chunks| == 0 then map[ALGORITHM := Tag(k, a)]
    else
      var n := |chunks| - 1;
      Box(k, a, chunks[..n])[BlockName(n) := k.compress(a, chunks[n])]
  }

  /** The reader's name for block i selects the i-th chunk and nothing else; no dataset was overwritten. */
  lemma {:induction false} BoxLookup(k: Codec, a: Alg, chunks: seq<Bytes>, i: int)
    ensures BlockName(i) in Box(k, a, chunks) <==> 0 <= i < |chunks|
    ensures 0 <= i < |chunks| ==> Box(k, a, chunks)[BlockName(i)] == k.compress(a, chunks[i])
  {
    var name := BlockName(i);
    if |chunks| == 0 {
      assert name != ALGORITHM by { BlockNameNotAlgorithm(i); }
    } else {
      var n := |chunks| - 1;
      var last := BlockName(n);
      BoxLookup(k, a, chunks[..n], i);
      assert name == last <==> i == n by { if name == last { BlockNameInjective(i, n); } }
    }
  }

  lemma {:induction false} BoxTag(k: Codec, a: Alg, chunks: seq<Bytes>)
    ensures ALGORITHM in Box(k, a, chunks) && Box(k, a, chunks)[ALGORITHM] == Tag(k, a)
    ensures |Box(k, a, chunks)| == |chunks| + 1
  {
    if |chunks| > 0 {
      var n := |chunks| - 1;
      BoxTag(k, a, chunks[..n]);
      BlockNameNotAlgorithm(n);
      BoxLookup(k, a, chunks[..n], n);
    }
  }

  lemma BoxAlgorithm(k: Codec, a: Alg, chunks: seq<Bytes>)
    requires Sound(k) && Writes(a)
    ensures AlgorithmOf(Box(k, a, chunks)) == a
  {
    BoxTag(k, a, chunks);
    TagParsesBack(k, a);
    assert |Tag(k, a)| == 5 + |k.version(a)|;
  }

  // ----- what a container stands for -----

  function Concat(chunks: seq<Bytes>): Bytes {
    if |chunks| == 0 then "" else Concat(chunks[..|chunks| - 1]) + chunks[|chunks| - 1]
  }

  /** The first n blocks decompressed one after the other. */
  function DecodeBlocks(k: Codec, a: Alg, sets: Sets, n: nat): Option<Bytes> {
    if n == 0 then Some("")
    else if BlockName(n - 1) !in sets then None
    else
      match DecodeBlocks(k, a, sets, n - 1)
      case None => None
      case Some(before) =>
        match k.decompress(a, sets[BlockName(n - 1)])
        case None => None
        case Some(block) => Some(before + block)
  }

  /** The bytes recoverable from a container without any other record of the file. */
  function Decode(k: Codec, sets: Sets): Option<Bytes> {
    if |sets| == 0 then None else DecodeBlocks(k, AlgorithmOf(sets), sets, |sets| - 1)
  }

  lemma {:induction false} DecodeBlocksOfBox(k: Codec, a: Alg, chunks: seq<Bytes>, n: nat)
    requires Sound(k) && Writes(a) && n <= |chunks|
    requires forall i {:trigger chunks[i]} :: 0 <= i < |chunks| ==> |chunks[i]| > 0
    ensures DecodeBlocks(k, a, Box(k, a, chunks), n) == Some(Concat(chunks[..n]))
  {
    if n > 0 {
      DecodeBlocksOfBox(k, a, chunks, n - 1);
      BoxLookup(k, a, chunks, n - 1);
      assert chunks[..n][..n - 1] == chunks[..n - 1];
    }
  }

  /** Whatever the cuts, a container the writer built decodes to the chunks put together. */
  lemma DecodeOfBox(k: Codec, a: Alg, chunks: seq<Bytes>)
    requires Sound(k) && Writes(a)
    requires forall i {:trigger chunks[i]} :: 0 <= i < |chunks| ==> |chunks[i]| > 0
    ensures Decode(k, Box(k, a, chunks)) == Some(Concat(chunks))
  {
    BoxAlgorithm(k, a, chunks);
    BoxTag(k, a, chunks);
    DecodeBlocksOfBox(k, a, chunks, |chunks|);
    assert chunks[..|chunks|] == chunks;
  }

  // ----- the cuts made when every read returns a full block -----

  /** The block an offset falls in, and the offset a block starts at. */
  function BlockOf(offset: nat): nat {
    offset / 4194304
  }

  function BlockStart(i: int): int {
    i * 4194304
  }

  function NumChunks(file: Bytes): nat {
    BlockOf(|file| + H5_BUFSIZE - 1)
  }

  function Chunk(file: Bytes, i: nat): (c: Bytes)
    requires i < NumChunks(file)
    ensures 0 < |c| <= H5_BUFSIZE
  {
    Slice(file, BlockStart(i), Min(H5_BUFSIZE, |file| - BlockStart(i)))
  }

  function Chunks(file: Bytes): (r: seq<Bytes>)
    ensures |r| == NumChunks(file)
    ensures forall i {:trigger r[i]} :: 0 <= i < |r| ==> r[i] == Chunk(file, i)
  {
    seq(NumChunks(file), i requires 0 <= i < NumChunks(file) => Chunk(file, i))
  }

  lemma {:induction false} ConcatOfChunks(file: Bytes, n: nat)
    requires n <= NumChunks(file)
    ensures Concat(Chunks(file)[..n]) == file[..Min(BlockStart(n), |file|)]
  {
    if n > 0 {
      ConcatOfChunks(file, n - 1);
      var cs := Chunks(file);
      assert cs[..n][..n - 1] == cs[..n - 1];
      var lo, hi := BlockStart(n - 1), Min(BlockStart(n), |file|);
      assert file[..hi] == file[..lo] + file[lo..hi];
    }
  }

  /** The blocks of a file make up the file. */
  lemma ChunksMakeFile(file: Bytes)
    ensures Concat(Chunks(file)) == file
  {
    ConcatOfChunks(file, NumChunks(file));
    assert Chunks(file)[..NumChunks(file)] == Chunks(file);
    assert file[..|file|] == file;
  }
}
