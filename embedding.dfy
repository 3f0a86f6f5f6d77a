/**
 * The `Embedding` object: from a configuration it builds the encoder's and
 * the decoder's embedding tables, each either a fresh variable or a table
 * assembled from pretrained files, and shares one table between the two
 * when the vocabulary is shared.
 */
module Embeddings {
  import opened EmbeddingErrors
  import opened EmbeddingFiles
  import opened PretrainedEmbedding

  /** Vocabularies larger than this get their fresh table placed on the CPU. */
  const VocabSizeThreshold: nat := 50000

  /** `_create_embedding_device`. */
  function EmbeddingDevice(vocabSize: nat): (d: string)
    ensures d == "/cpu:0" <==> vocabSize > VocabSizeThreshold
    ensures d == "/gpu:0" <==> vocabSize <= VocabSizeThreshold
  {
    if vocabSize > VocabSizeThreshold then "/cpu:0" else "/gpu:0"
  }

  /** The partitioner of the variable scope: a fixed-size partitioner into
      `numPartitions` shards, or none. */
  function PartitionerOf(numPartitions: int): (p: Option<nat>)
    ensures p.Some? <==> numPartitions > 1
    ensures p.Some? ==> p.value == numPartitions
  {
    if numPartitions <= 1 then None else Some(numPartitions)
  }

  /** What an embedding table holds: a fresh `[rows, cols]` variable, placed
      on `device` and split by `partitioner`, or a pretrained table. */
  datatype Weights =
    | Variable(name: string, rows: nat, cols: nat, device: string, partitioner: Option<nat>)
    | Pretrained(cells: Matrix)

  /** A table object. Tables are compared by identity: a shared vocabulary
      makes the decoder's table the very object the encoder's is. */
  class Table {
    const weights: Weights

    constructor (weights: Weights)
      ensures this.weights == weights
    {
      this.weights := weights;
    }
  }

  // ---------------------------------------------------------------------------
  // One table

  /** `_create_or_load_embeddings` as a value. A file is `None` when its path
      is unset or empty, and otherwise its lines. */
  function WeightsOf(name: string, vocabFile: Option<seq<string>>, embeddingFile: Option<seq<string>>,
                     vocabSize: nat, embeddingSize: nat, partitioner: Option<nat>): Result<Weights>
  {
    if vocabFile.Some? && embeddingFile.Some? then
      match PretrainedMatrix(vocabFile.value, embeddingFile.value)
      case Err(e) => Err(e)
      case Ok(m) => Ok(Pretrained(m))
    else
      Ok(Variable(name, vocabSize, embeddingSize, EmbeddingDevice(vocabSize), partitioner))
  }

  /** `_create_or_load_embeddings`: a pretrained table when both files are set,
      a fresh variable otherwise; always a new table object. */
  method CreateOrLoadEmbeddings(name: string, vocabFile: Option<seq<string>>, embeddingFile: Option<seq<string>>,
                                vocabSize: nat, embeddingSize: nat, partitioner: Option<nat>)
    returns (r: Result<Table>)
    ensures r.Ok? <==> WeightsOf(name, vocabFile, embeddingFile, vocabSize, embeddingSize, partitioner).Ok?
    ensures r.Err? ==> r.error == WeightsOf(name, vocabFile, embeddingFile, vocabSize, embeddingSize, partitioner).error
    ensures r.Ok? ==> fresh(r.value) &&
                      r.value.weights == WeightsOf(name, vocabFile, embeddingFile, vocabSize, embeddingSize, partitioner).value
  {
    var weights: Weights;
    if vocabFile.Some? && embeddingFile.Some? {
      var m :- CreatePretrainedEmbedding(vocabFile.value, embeddingFile.value);
      weights := Pretrained(m);
    } else {
      weights := Variable(name, vocabSize, embeddingSize, EmbeddingDevice(vocabSize), partitioner);
    }
    var table := new Table(weights);
    return Ok(table);
  }

  /** Without both files, the table is a fresh `[vocabSize, embeddingSize]`
      variable on the CPU exactly when the vocabulary exceeds the threshold. */
  lemma FreshVariable(name: string, vocabFile: Option<seq<string>>, embeddingFile: Option<seq<string>>,
                      vocabSize: nat, embeddingSize: nat, partitioner: Option<nat>)
    requires vocabFile.None? || embeddingFile.None?
    ensures var r := WeightsOf(name, vocabFile, embeddingFile, vocabSize, embeddingSize, partitioner);
            && r.Ok? && r.value.Variable?
            && r.value.name == name && r.value.rows == vocabSize && r.value.cols == embeddingSize
            && r.value.partitioner == partitioner
            && (r.value.device == "/cpu:0" <==> vocabSize > VocabSizeThreshold)
            && (r.value.device == "/gpu:0" <==> vocabSize <= VocabSizeThreshold)
  {
  }

  /** With both files set, the table is pretrained: one row per line of the
      vocabulary file, as wide as the embedding file fixes, and it fails
      exactly where the pretrained path fails. */
  lemma PretrainedTable(name: string, vocabFile: Option<seq<string>>, embeddingFile: Option<seq<string>>,
                        vocabSize: nat, embeddingSize: nat, partitioner: Option<nat>)
    requires vocabFile.Some? && embeddingFile.Some?
    ensures var r := WeightsOf(name, vocabFile, embeddingFile, vocabSize, embeddingSize, partitioner);
            && (r.Err? <==> PretrainedMatrix(vocabFile.value, embeddingFile.value).Err?)
            && (r.Err? ==> r.error == PretrainedMatrix(vocabFile.value, embeddingFile.value).error)
            && (r.Ok? ==> r.value.Pretrained?
                          && |r.value.cells| == |vocabFile.value| >= NumTrainableTokens
                          && forall i :: 0 <= i < |r.value.cells| ==>
                               |r.value.cells[i]| == FixedSize(Parsed(embeddingFile.value)))
  {
    var m := PretrainedMatrix(vocabFile.value, embeddingFile.value);
    if m.Ok? {
      PretrainedShape(VocabOf(vocabFile.value), Parsed(embeddingFile.value));
    }
  }

  /** A pretrained table does not depend on the name, the configured sizes or
      the partitioner. */
  lemma PretrainedIgnoresSizes(vocabFile: Option<seq<string>>, embeddingFile: Option<seq<string>>,
                               name: string, vocabSize: nat, embeddingSize: nat, partitioner: Option<nat>,
                               name': string, vocabSize': nat, embeddingSize': nat, partitioner': Option<nat>)
    requires vocabFile.Some? && embeddingFile.Some?
    ensures WeightsOf(name, vocabFile, embeddingFile, vocabSize, embeddingSize, partitioner)
         == WeightsOf(name', vocabFile, embeddingFile, vocabSize', embeddingSize', partitioner')
  {
  }

  // ---------------------------------------------------------------------------
  // Both tables

  /** The constructor's arguments that decide the tables. */
  datatype Config = Config(
    srcVocabSize: nat, tgtVocabSize: nat,
    srcEmbeddingSize: nat, tgtEmbeddingSize: nat,
    srcVocabFile: Option<seq<string>>, tgtVocabFile: Option<seq<string>>,
    srcEmbeddingFile: Option<seq<string>>, tgtEmbeddingFile: Option<seq<string>>,
    shareVocab: bool,
    numPartitions: int)

  /** An embedding file is configured while the scope would be partitioned. */
  predicate PartitionedWithFile(c: Config) {
    (c.srcEmbeddingFile.Some? || c.tgtEmbeddingFile.Some?) && PartitionerOf(c.numPartitions).Some?
  }

  /** The encoder's `_create_or_load_embeddings` call: the source side's
      vocabulary file, embedding file and sizes, under the scope's partitioner. */
  function EncoderWeights(c: Config): (r: Result<Weights>)
    ensures r.Err? ==> c.srcVocabFile.Some? && c.srcEmbeddingFile.Some?
    ensures r.Ok? ==> (r.value.Pretrained? <==> c.srcVocabFile.Some? && c.srcEmbeddingFile.Some?)
    ensures r.Ok? && r.value.Variable? ==>
              r.value == Variable("encoder_embedding", c.srcVocabSize, c.srcEmbeddingSize,
                                  EmbeddingDevice(c.srcVocabSize), PartitionerOf(c.numPartitions))
    ensures r.Ok? && r.value.Pretrained? ==> |r.value.cells| == |c.srcVocabFile.value|
  {
    var p := PartitionerOf(c.numPartitions);
    if c.srcVocabFile.Some? && c.srcEmbeddingFile.Some? then
      PretrainedTable("encoder_embedding", c.srcVocabFile, c.srcEmbeddingFile, c.srcVocabSize, c.srcEmbeddingSize, p);
      WeightsOf("encoder_embedding", c.srcVocabFile, c.srcEmbeddingFile, c.srcVocabSize, c.srcEmbeddingSize, p)
    else
      WeightsOf("encoder_embedding", c.srcVocabFile, c.srcEmbeddingFile, c.srcVocabSize, c.srcEmbeddingSize, p)
  }

  /** The decoder's call: the same with the target side's files and sizes. */
  function DecoderWeights(c: Config): (r: Result<Weights>)
    ensures r.Err? ==> c.tgtVocabFile.Some? && c.tgtEmbeddingFile.Some?
    ensures r.Ok? ==> (r.value.Pretrained? <==> c.tgtVocabFile.Some? && c.tgtEmbeddingFile.Some?)
    ensures r.Ok? && r.value.Variable? ==>
              r.value == Variable("decoder_embedding", c.tgtVocabSize, c.tgtEmbeddingSize,
                                  EmbeddingDevice(c.tgtVocabSize), PartitionerOf(c.numPartitions))
    ensures r.Ok? && r.value.Pretrained? ==> |r.value.cells| == |c.tgtVocabFile.value|
  {
    var p := PartitionerOf(c.numPartitions);
    if c.tgtVocabFile.Some? && c.tgtEmbeddingFile.Some? then
      PretrainedTable("decoder_embedding", c.tgtVocabFile, c.tgtEmbeddingFile, c.tgtVocabSize, c.tgtEmbeddingSize, p);
      WeightsOf("decoder_embedding", c.tgtVocabFile, c.tgtEmbeddingFile, c.tgtVocabSize, c.tgtEmbeddingSize, p)
    else
      WeightsOf("decoder_embedding", c.tgtVocabFile, c.tgtEmbeddingFile, c.tgtVocabSize, c.tgtEmbeddingSize, p)
  }

  /** `_embedding` as a value: the encoder's and the decoder's weights, or the
      first error raised on the way. */
  function EmbeddingsOf(c: Config): Result<(Weights, Weights)>
  {
    if PartitionedWithFile(c) then Err(PartitionedPretrained)
    else
      match EncoderWeights(c)
      case Err(e) => Err(e)
      case Ok(encoder) =>
        if c.shareVocab then
          if c.srcVocabSize != c.tgtVocabSize then Err(SharedVocabSizeMismatch)
          else Ok((encoder, encoder))
        else
          match DecoderWeights(c)
          case Err(e) => Err(e)
          case Ok(decoder) => Ok((encoder, decoder))
  }

  /** The one table-building step that never raises the configuration errors. */
  lemma WeightsNoConfigError(name: string, vocabFile: Option<seq<string>>, embeddingFile: Option<seq<string>>,
                             vocabSize: nat, embeddingSize: nat, partitioner: Option<nat>)
    ensures var r := WeightsOf(name, vocabFile, embeddingFile, vocabSize, embeddingSize, partitioner);
            r.Err? ==> !r.error.PartitionedPretrained? && !r.error.SharedVocabSizeMismatch? && !r.error.UnsetVocabularyFile?
  {
    if vocabFile.Some? && embeddingFile.Some? {
      var m := PretrainedMatrix(vocabFile.value, embeddingFile.value);
      assert m.Err? ==> !m.error.PartitionedPretrained? && !m.error.SharedVocabSizeMismatch? && !m.error.UnsetVocabularyFile?;
    }
  }

  /** The partitioning error is raised exactly when an embedding file is
      configured and more than one partition is asked for, whether or not the
      vocabulary files are set. */
  lemma PartitionedPretrainedIff(c: Config)
    ensures EmbeddingsOf(c) == Err(PartitionedPretrained) <==>
            (c.srcEmbeddingFile.Some? || c.tgtEmbeddingFile.Some?) && c.numPartitions > 1
  {
    var p := PartitionerOf(c.numPartitions);
    WeightsNoConfigError("encoder_embedding", c.srcVocabFile, c.srcEmbeddingFile, c.srcVocabSize, c.srcEmbeddingSize, p);
    WeightsNoConfigError("decoder_embedding", c.tgtVocabFile, c.tgtEmbeddingFile, c.tgtVocabSize, c.tgtEmbeddingSize, p);
  }

  /** A partitioned table is always a fresh variable: when the build succeeds,
      every variable is partitioned exactly when more than one partition is
      asked for, and with more than one partition no table is pretrained. */
  lemma PartitionedTables(c: Config)
    requires EmbeddingsOf(c).Ok?
    ensures var (encoder, decoder) := EmbeddingsOf(c).value;
            && (encoder.Variable? ==> (encoder.partitioner.Some? <==> c.numPartitions > 1))
            && (decoder.Variable? ==> (decoder.partitioner.Some? <==> c.numPartitions > 1))
            && (c.numPartitions > 1 ==> encoder.Variable? && decoder.Variable?)
  {
    var p := PartitionerOf(c.numPartitions);
    if c.numPartitions > 1 {
      FreshVariable("encoder_embedding", c.srcVocabFile, c.srcEmbeddingFile, c.srcVocabSize, c.srcEmbeddingSize, p);
      FreshVariable("decoder_embedding", c.tgtVocabFile, c.tgtEmbeddingFile, c.tgtVocabSize, c.tgtEmbeddingSize, p);
    }
  }

  /** A shared vocabulary gives the decoder the encoder's table, and only
      succeeds when both vocabulary sizes agree. */
  lemma SharedVocab(c: Config)
    requires c.shareVocab && EmbeddingsOf(c).Ok?
    ensures EmbeddingsOf(c).value.1 == EmbeddingsOf(c).value.0 == EncoderWeights(c).value
    ensures c.srcVocabSize == c.tgtVocabSize
  {
  }

  /** Separate vocabularies give each side the table its own settings call for. */
  lemma SeparateVocab(c: Config)
    requires !c.shareVocab
    ensures EmbeddingsOf(c).Ok? <==> !PartitionedWithFile(c) && EncoderWeights(c).Ok? && DecoderWeights(c).Ok?
    ensures EmbeddingsOf(c).Ok? ==> EmbeddingsOf(c).value == (EncoderWeights(c).value, DecoderWeights(c).value)
  {
  }

  /** The size check of a shared vocabulary comes after the encoder's table is
      built: it is raised exactly when that build succeeded and the sizes differ. */
  lemma SharedSizeMismatch(c: Config)
    ensures EmbeddingsOf(c) == Err(SharedVocabSizeMismatch) <==>
            !PartitionedWithFile(c) && EncoderWeights(c).Ok? && c.shareVocab && c.srcVocabSize != c.tgtVocabSize
  {
    var p := PartitionerOf(c.numPartitions);
    WeightsNoConfigError("encoder_embedding", c.srcVocabFile, c.srcEmbeddingFile, c.srcVocabSize, c.srcEmbeddingSize, p);
    WeightsNoConfigError("decoder_embedding", c.tgtVocabFile, c.tgtEmbeddingFile, c.tgtVocabSize, c.tgtEmbeddingSize, p);
  }

  /** The encoder's failure is reported before anything about the decoder. */
  lemma EncoderFirst(c: Config)
    requires !PartitionedWithFile(c) && EncoderWeights(c).Err?
    ensures EmbeddingsOf(c) == Err(EncoderWeights(c).error)
  {
  }

  /** With a shared vocabulary the target's files and embedding size play no
      part, except that a set target embedding file still counts against
      partitioning. */
  lemma SharingIgnoresTarget(c: Config, tgtVocabFile: Option<seq<string>>, tgtEmbeddingFile: Option<seq<string>>,
                             tgtEmbeddingSize: nat)
    requires c.shareVocab
    requires tgtEmbeddingFile.Some? == c.tgtEmbeddingFile.Some?
    ensures EmbeddingsOf(c.(tgtVocabFile := tgtVocabFile, tgtEmbeddingFile := tgtEmbeddingFile,
                            tgtEmbeddingSize := tgtEmbeddingSize)) == EmbeddingsOf(c)
  {
  }

  /** `Embedding(...)` as a value: the lookup tables built first refuse an
      unset source or target vocabulary file, whether or not the vocabulary is
      shared; then `_embedding` builds the two tables. */
  function ConstructionOf(c: Config): Result<(Weights, Weights)>
  {
    if c.srcVocabFile.None? || c.tgtVocabFile.None? then Err(UnsetVocabularyFile)
    else EmbeddingsOf(c)
  }

  /** The lookup tables' error is raised exactly when a vocabulary file is unset. */
  lemma UnsetVocabularyIff(c: Config)
    ensures ConstructionOf(c) == Err(UnsetVocabularyFile) <==> c.srcVocabFile.None? || c.tgtVocabFile.None?
  {
    var p := PartitionerOf(c.numPartitions);
    WeightsNoConfigError("encoder_embedding", c.srcVocabFile, c.srcEmbeddingFile, c.srcVocabSize, c.srcEmbeddingSize, p);
    WeightsNoConfigError("decoder_embedding", c.tgtVocabFile, c.tgtEmbeddingFile, c.tgtVocabSize, c.tgtEmbeddingSize, p);
  }

  /** Once constructed, with both vocabulary files set, a side's table is
      pretrained exactly when its embedding file is set (the decoder's own
      setting counting only without a shared vocabulary). */
  lemma ConstructedChoice(c: Config)
    requires ConstructionOf(c).Ok?
    ensures ConstructionOf(c).value.0.Pretrained? <==> c.srcEmbeddingFile.Some?
    ensures !c.shareVocab ==> (ConstructionOf(c).value.1.Pretrained? <==> c.tgtEmbeddingFile.Some?)
    ensures c.shareVocab ==> ConstructionOf(c).value.1 == ConstructionOf(c).value.0
  {
    var p := PartitionerOf(c.numPartitions);
    if c.srcEmbeddingFile.None? {
      FreshVariable("encoder_embedding", c.srcVocabFile, c.srcEmbeddingFile, c.srcVocabSize, c.srcEmbeddingSize, p);
    }
    if c.tgtEmbeddingFile.None? {
      FreshVariable("decoder_embedding", c.tgtVocabFile, c.tgtEmbeddingFile, c.tgtVocabSize, c.tgtEmbeddingSize, p);
    }
  }

  // ---------------------------------------------------------------------------
  // The object

  class Embedding {
    const config: Config
    var encoderTable: Table?
    var decoderTable: Table?

    /** The attribute assignments of the constructor, before any table is built. */
    constructor (config: Config)
      ensures this.config == config && encoderTable == null && decoderTable == null
    {
      this.config := config;
      encoderTable := null;
      decoderTable := null;
    }

    /** The `encoder_embedding` property. */
    function EncoderEmbedding(): Table?
      reads this
    {
      encoderTable
    }

    /** The `decoder_embedding` property. */
    function DecoderEmbedding(): Table?
      reads this
    {
      decoderTable
    }

    /** Both tables are built as the configuration calls for, and they are one
        object exactly when the vocabulary is shared. */
    predicate Built()
      reads this
    {
      && EncoderEmbedding() != null && DecoderEmbedding() != null
      && EmbeddingsOf(config) == Ok((EncoderEmbedding().weights, DecoderEmbedding().weights))
      && (EncoderEmbedding() == DecoderEmbedding() <==> config.shareVocab)
    }

    /** `_embedding`: builds the encoder's table, then shares it or builds the
        decoder's. Where it raises, the attributes assigned so far stay assigned. */
    method BuildEmbeddings() returns (r: Result<(Table, Table)>)
      modifies this
      ensures r.Ok? <==> EmbeddingsOf(config).Ok?
      ensures r.Err? ==> r.error == EmbeddingsOf(config).error
      ensures r.Ok? ==> Built() && encoderTable == r.value.0 && decoderTable == r.value.1
      ensures r.Ok? ==> fresh(r.value.0) && fresh(r.value.1)
      ensures r.Err? ==> decoderTable == old(decoderTable)
      ensures r.Err? && (PartitionedWithFile(config) || EncoderWeights(config).Err?) ==>
                encoderTable == old(encoderTable)
      ensures r.Err? && !PartitionedWithFile(config) && EncoderWeights(config).Ok? ==>
                encoderTable != null && fresh(encoderTable) && encoderTable.weights == EncoderWeights(config).value
    {
      var partitioner := PartitionerOf(config.numPartitions);
      if (config.srcEmbeddingFile.Some? || config.tgtEmbeddingFile.Some?) && partitioner.Some? {
        return Err(PartitionedPretrained);
      }
      var encoder :- CreateOrLoadEmbeddings("encoder_embedding", config.srcVocabFile, config.srcEmbeddingFile,
                                            config.srcVocabSize, config.srcEmbeddingSize, partitioner);
      encoderTable := encoder;
      var decoder: Table;
      if config.shareVocab {
        if config.srcVocabSize != config.tgtVocabSize {
          return Err(SharedVocabSizeMismatch);
        }
        decoder := encoder;
      } else {
        decoder :- CreateOrLoadEmbeddings("decoder_embedding", config.tgtVocabFile, config.tgtEmbeddingFile,
                                          config.tgtVocabSize, config.tgtEmbeddingSize, partitioner);
      }
      decoderTable := decoder;
      return Ok((encoder, decoder));
    }

    /** `Embedding(...)`: the constructor, which checks the vocabulary files
        its lookup tables need, then builds both tables and raises whatever
        building them raises. */
    static method New(config: Config) returns (r: Result<Embedding>)
      ensures r.Ok? <==> ConstructionOf(config).Ok?
      ensures r.Err? ==> r.error == ConstructionOf(config).error
      ensures r.Ok? ==> fresh(r.value) && r.value.config == config && r.value.Built()
    {
      if config.srcVocabFile.None? || config.tgtVocabFile.None? {
        return Err(UnsetVocabularyFile);
      }
      var e := new Embedding(config);
      var tables := e.BuildEmbeddings();
      if tables.Err? {
        return Err(tables.error);
      }
      return Ok(e);
    }
  }
}
