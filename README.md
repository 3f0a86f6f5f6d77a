# Embedding tables of naivenmt, modelled in Dafny

This project models the embedding layer of the naivenmt sequence-to-sequence
translation system (`naivenmt/embeddings/embedding.py`). From its configuration,
an `Embedding` object builds one embedding table for the encoder and one for the
decoder.

- **Fresh variable.** A table is a fresh `[vocab_size, embedding_size]` variable
  unless both a vocabulary file and an embedding file are configured for that side.
  Vocabularies above 50000 tokens place it on `/cpu:0`; those of 50000 tokens or
  fewer on `/gpu:0`.
  More than one partition splits it with a fixed-size partitioner.
- **Pretrained table.** With both files set, the table is assembled from the files:
  - The vocabulary file is read line by line, stripped.
  - The embedding file is read line by line. Each stripped line is split on single
    spaces into a word and its components. A later line for the same word wins.
    Every vector after the first non-empty one must have that one's length; empty
    vectors before it are accepted.
  - The first three vocabulary tokens get zero vectors when the file lacks them.
  - The rows are gathered in vocabulary order.
  - The first three rows are replaced by a trainable `[3, size]` variable; the rest
    stay as frozen constants.
- **Configuration errors.**
  - An embedding file together with more than one partition is refused.
  - A shared vocabulary makes the decoder's table the very object the encoder's
    table is.
  - A shared vocabulary is refused after the encoder's table is built when the two
    vocabulary sizes differ.

The modules follow the source's structure:

| file | module | models |
|---|---|---|
| `errors.dfy` | `EmbeddingErrors` | the exceptions the build can raise, as an `Error` value, and a `Result` type |
| `pystr.dfy` | `PyStr` | Python's `str.strip()` (Python's whitespace set) and `str.split(" ")` |
| `embedding_files.dfy` | `EmbeddingFiles` | `_load_vocab` and `_load_embedding_txt`, as loops proved against functions of the file's lines |
| `pretrained.dfy` | `PretrainedEmbedding` | `_create_pretrained_embedding`: zero-filling, row gathering, split and rejoin, each with the error it can raise |
| `embedding.dfy` | `Embeddings` | `_create_embedding_device`, `_create_or_load_embeddings`, `_embedding`, the `Embedding` class with its two table attributes and their getters |

How the source's concepts map to the model:

- **Files.** A file is the sequence of its decoded lines; `None` stands for an
  unset or empty path (Python falsiness).
- **Vector components.** A component is kept as its text (`Literal`). `Zero` is the
  `0.0` of a filled vector.
- **Table cells.** A cell of a pretrained table is `Frozen(x)` or `Trainable`.
- **Table objects.** A table object is a `Table` instance, so "the same object" is
  object identity.
- **Getters.** The `encoder_embedding` and `decoder_embedding` properties are the
  functions `Embedding.EncoderEmbedding` and `Embedding.DecoderEmbedding`. The
  predicate `Embedding.Built` states what they return once both tables exist.
- **Construction.** The constructor first builds four lookup tables from the two
  vocabulary files. Only their refusal of an unset path is modelled
  (`ConstructionOf`); then `_embedding` builds the tables (`EmbeddingsOf`).

Each loop of the source is a method with loop invariants, and each is proved
equal to a function of its input:

- `LoadVocab` against `VocabOf`
- `LoadEmbeddingTxt` against `DictOf`, `SizeOf` and `Uniform` of `Parsed(lines)`
- `FillTrainable` against `ZeroFilled`

`CreatePretrainedEmbedding` is proved equal to `PretrainedMatrix`,
`BuildEmbeddings` to `EmbeddingsOf`, and `New` to `ConstructionOf`. The lemmas state the source's promises about
those functions.

Two consequences of the code are worth stating directly:

- A line is split on the single character `" "`. So two adjacent spaces give an
  empty component, and a tab does not separate components.
- A pretrained table has one row per line of the vocabulary file, whatever
  `vocab_size` is configured (`Embeddings.PretrainedTable`,
  `Embeddings.PretrainedIgnoresSizes`).

## Model

| member | source | states |
|---|---|---|
| `PyStr.TrimStart` | naivenmt/embeddings/embedding.py:189 | the result is a suffix of the input; everything removed is whitespace; the result does not start with whitespace |
| `PyStr.IsSpace` | naivenmt/embeddings/embedding.py:189 | the characters `strip()` removes: the space, tab and line endings are among them, letters, digits, `.`, `-` and `+` are not |
| `PyStr.TrimEnd` | naivenmt/embeddings/embedding.py:189 | the result is a prefix of the input; everything removed is whitespace; the result does not end with whitespace |
| `PyStr.TrimStartStep` | naivenmt/embeddings/embedding.py:189 | removing one more leading whitespace character keeps the result a suffix with only whitespace removed before it |
| `PyStr.TrimEndStep` | naivenmt/embeddings/embedding.py:189 | removing one more trailing whitespace character keeps the result a prefix with only whitespace removed after it |
| `PyStr.Strip` | naivenmt/embeddings/embedding.py:189 | `strip()` never lengthens its input and leaves no whitespace at either end |
| `PyStr.TrimStartPrefix` | naivenmt/embeddings/embedding.py:189 | removing leading whitespace from whitespace followed by a non-space-initial text gives that text |
| `PyStr.TrimEndSuffix` | naivenmt/embeddings/embedding.py:189 | removing trailing whitespace from a non-space-final text followed by whitespace gives that text |
| `PyStr.StripOfPadded` | naivenmt/embeddings/embedding.py:189 | `strip()` returns exactly the text between whitespace-only padding, when that text has no whitespace at its ends |
| `PyStr.Split` | naivenmt/embeddings/embedding.py:198 | `split(" ")` returns at least one piece; no piece contains the separator; joining the pieces with it gives the input back |
| `PyStr.SplitAfterPiece` | naivenmt/embeddings/embedding.py:198 | a separator-free piece followed by the separator splits off as the first piece |
| `PyStr.SplitSingle` | naivenmt/embeddings/embedding.py:198 | a text without the separator splits into itself alone |
| `PyStr.SplitJoin` | naivenmt/embeddings/embedding.py:198 | splitting undoes joining when no piece contains the separator (the other half of the round trip) |
| `EmbeddingFiles.VocabOf` | naivenmt/embeddings/embedding.py:183-190 | the tokens of a vocabulary file: line `i` stripped, one per line; `LoadVocab` is proved to return them |
| `EmbeddingFiles.LoadVocab` | naivenmt/embeddings/embedding.py:183-190 | the count equals the list's length and the number of lines; entry `i` is line `i` stripped |
| `EmbeddingFiles.ParseLine` | naivenmt/embeddings/embedding.py:198-200 | the word is the first token of the stripped line split on `" "`, the components are the rest; characterised by `ParseLineRejoins` and `ParseLineUnique` |
| `EmbeddingFiles.ParseLineRejoins` | naivenmt/embeddings/embedding.py:197-199 | the word and components of a line, rejoined with single spaces, are the stripped line, and none contains a space |
| `EmbeddingFiles.ParseLineUnique` | naivenmt/embeddings/embedding.py:197-199 | any word and space-free components that rejoin to the stripped line are the ones parsing finds (the word is the first space token, the rest are the components) |
| `EmbeddingFiles.VectorOf` | naivenmt/embeddings/embedding.py:200 | the vector has one component per field |
| `EmbeddingFiles.Parsed` | naivenmt/embeddings/embedding.py:197-200 | one entry per line of the file |
| `EmbeddingFiles.DictOf` | naivenmt/embeddings/embedding.py:201 | the dictionary after all lines, each binding its word; characterised by `DictOfKeys` and `DictOfLastWins` |
| `EmbeddingFiles.FixedSize` | naivenmt/embeddings/embedding.py:195-206 | the size the loop settles on: the first non-zero vector length, 0 when there is none; characterised by `FixedSizeIsFirstNonEmpty` |
| `EmbeddingFiles.SizeOf` | naivenmt/embeddings/embedding.py:195-206 | the returned size: `None` for a file without lines, else `FixedSize` |
| `EmbeddingFiles.Uniform` | naivenmt/embeddings/embedding.py:202-203 | the assertion never fails: every vector after a non-empty one has that one's length; `UniformStep` ties it to the per-line check |
| `EmbeddingFiles.LoadEmbeddingTxt` | naivenmt/embeddings/embedding.py:192-206 | fails with the assertion exactly when a vector's length differs from the size fixed before it; otherwise returns the dictionary of all lines and the fixed size, `None` for an empty file |
| `EmbeddingFiles.LoadStep` | naivenmt/embeddings/embedding.py:197-205 | one pass of the loop body: the assertion fails exactly when the next line breaks uniformity, and otherwise the dictionary and size become those of one more line |
| `EmbeddingFiles.FixedSizeIsFirstNonEmpty` | naivenmt/embeddings/embedding.py:202-205 | the fixed size is the length of the first non-empty vector (a zero length does not fix it); it is 0 only when every vector is empty |
| `EmbeddingFiles.UniformLengths` | naivenmt/embeddings/embedding.py:202-205 | when the assertion never fails, every non-empty vector has the fixed size |
| `EmbeddingFiles.UniformStep` | naivenmt/embeddings/embedding.py:202-205 | one more line keeps the file passing exactly when it passes the assertion against the size fixed so far (both directions) |
| `EmbeddingFiles.UniformDropLast` | naivenmt/embeddings/embedding.py:202-205 | a file that passes the assertion passes it without its last line, and that line has the size fixed before it, if any |
| `EmbeddingFiles.UniformAppend` | naivenmt/embeddings/embedding.py:202-205 | a line with the size fixed so far, or any line while none is fixed, keeps a passing file passing |
| `EmbeddingFiles.PrefixStep` | naivenmt/embeddings/embedding.py:197-205 | the loop body's effect on the dictionary, the size and the assertion's outcome |
| `EmbeddingFiles.UniformPrefix` | naivenmt/embeddings/embedding.py:203 | once the assertion fails on a prefix, the whole file fails it |
| `EmbeddingFiles.DictOfKeys` | naivenmt/embeddings/embedding.py:201 | the dictionary's keys are exactly the words of the file |
| `EmbeddingFiles.DictOfLastWins` | naivenmt/embeddings/embedding.py:201 | a word is bound to the vector of its last line |
| `EmbeddingFiles.DictOfValues` | naivenmt/embeddings/embedding.py:199-201 | every dictionary vector is the vector of some line with that word |
| `EmbeddingFiles.DictOfLengths` | naivenmt/embeddings/embedding.py:201-205 | in a file that passes the assertion, every vector of the dictionary is empty or has the fixed size |
| `PretrainedEmbedding.Zeros` | naivenmt/embeddings/embedding.py:170 | `[0.0] * n` has length `n` and only zeros |
| `PretrainedEmbedding.ZeroFilled` | naivenmt/embeddings/embedding.py:166-170 | the keys are the old keys plus the trainable tokens; old entries are unchanged; each added token maps to zeros of the file's size |
| `PretrainedEmbedding.FillTrainable` | naivenmt/embeddings/embedding.py:166-170 | raises the `[0.0] * None` TypeError exactly when the file fixed no size and a trainable token is missing; otherwise returns the zero-filled dictionary |
| `PretrainedEmbedding.ZeroFilledStep` | naivenmt/embeddings/embedding.py:168-170 | one pass of the fill loop binds the next token to zeros unless it already has a vector |
| `PretrainedEmbedding.RowsOf` | naivenmt/embeddings/embedding.py:171-172 | succeeds exactly when every vocabulary token has a vector; row `i` is token `i`'s vector; otherwise the KeyError names the first missing token |
| `PretrainedEmbedding.RowsOfShift` | naivenmt/embeddings/embedding.py:171-172 | the first token without a vector in the tail is the first in the whole vocabulary when the head has one |
| `PretrainedEmbedding.Freeze` | naivenmt/embeddings/embedding.py:173-175 | a frozen row keeps the vector's length and components |
| `PretrainedEmbedding.TrainableRow` | naivenmt/embeddings/embedding.py:176-179 | a row of the trainable variable has the given width and only trainable cells |
| `PretrainedEmbedding.Assemble` | naivenmt/embeddings/embedding.py:171-180 | succeeds exactly when the rows are rectangular, at least three, the size is known and equals the row width; the errors come in the source's order: ragged rows (the numpy error), then fewer than three rows, then the unknown shape, then the width the concatenation rejects; the result keeps the row count, its first three rows are trainable and the rest are the frozen rows |
| `PretrainedEmbedding.TrainableTokens` | naivenmt/embeddings/embedding.py:166 | `vocab[:3]`: the first three tokens, or all of a shorter vocabulary |
| `PretrainedEmbedding.Filled` | naivenmt/embeddings/embedding.py:166-170 | the file's dictionary after the trainable tokens are zero-filled at the file's size; `FillTrainable` is proved to compute it |
| `PretrainedEmbedding.PretrainedOf` | naivenmt/embeddings/embedding.py:159-180 | the pretrained path never raises the configuration errors |
| `PretrainedEmbedding.PretrainedMatrix` | naivenmt/embeddings/embedding.py:159-180 | the pretrained path applied to the two files' parsed lines; `CreatePretrainedEmbedding` is proved to compute it |
| `PretrainedEmbedding.CreatePretrainedEmbedding` | naivenmt/embeddings/embedding.py:159-180 | the method's result is the pretrained table of the two files, error included |
| `PretrainedEmbedding.PretrainedShape` | naivenmt/embeddings/embedding.py:171-180 | a pretrained table has one row per vocabulary token, at least three, each as wide as the size the embedding file fixes |
| `PretrainedEmbedding.PretrainedAssembled` | naivenmt/embeddings/embedding.py:171-180 | a pretrained table is the assembly of the gathered rows at the file's fixed size, which is known |
| `PretrainedEmbedding.PretrainedRows` | naivenmt/embeddings/embedding.py:166-180 | rows 0-2 are trainable; later row `i` is the frozen vector of token `i`, or frozen zeros when the file lacks the token and it repeats a trainable token |
| `PretrainedEmbedding.FilledAt` | naivenmt/embeddings/embedding.py:166-172 | a token's filled vector is the file's, or zeros for a trainable token the file lacks |
| `PretrainedEmbedding.PretrainedMissingToken` | naivenmt/embeddings/embedding.py:166-172 | a KeyError names a token past the first three that the file lacks; trainable tokens never raise it |
| `PretrainedEmbedding.PretrainedMixedSizes` | naivenmt/embeddings/embedding.py:202-203 | the assertion error arises exactly when the embedding file's vector lengths are not uniform |
| `PretrainedEmbedding.WellFormedFile` | naivenmt/embeddings/embedding.py:192-206 | a non-empty file whose lines all have `n > 0` components passes the assertion, fixes size `n`, and binds every word to an `n`-vector |
| `PretrainedEmbedding.FilledRows` | naivenmt/embeddings/embedding.py:166-172 | when every token past the first three has an `n`-vector, all rows are gathered and have length `n` |
| `PretrainedEmbedding.PretrainedSucceeds` | naivenmt/embeddings/embedding.py:159-180 | a well-formed file and a vocabulary of at least three tokens, each past the third present in the file, give a table of width `n` |
| `PretrainedEmbedding.NoUndefinedShape` | naivenmt/embeddings/embedding.py:176-179 | the trainable variable's width is always known when it is created, so its shape error never arises |
| `Embeddings.EmbeddingDevice` | naivenmt/embeddings/embedding.py:208-213 | `/cpu:0` exactly when the vocabulary exceeds 50000 tokens, `/gpu:0` otherwise |
| `Embeddings.PartitionerOf` | naivenmt/embeddings/embedding.py:109-112 | a partitioner exists exactly when more than one partition is asked for, with that many shards |
| `Embeddings.Table.constructor` | naivenmt/embeddings/embedding.py:150-156 | a new table object holding the given weights |
| `Embeddings.WeightsOf` | naivenmt/embeddings/embedding.py:142-157 | a pretrained table when both files are set, otherwise a fresh variable; characterised by `FreshVariable`, `PretrainedTable` and `PretrainedIgnoresSizes` |
| `Embeddings.CreateOrLoadEmbeddings` | naivenmt/embeddings/embedding.py:142-157 | returns a new table object holding the weights its arguments call for, or the error building them raises |
| `Embeddings.FreshVariable` | naivenmt/embeddings/embedding.py:149-156 | without both files: a `[vocab_size, embedding_size]` variable with the given name and partitioner, on `/cpu:0` exactly when the vocabulary exceeds 50000, else on `/gpu:0` |
| `Embeddings.PretrainedTable` | naivenmt/embeddings/embedding.py:149-150 | with both files: a pretrained table with one row per vocabulary line and the file's width, failing exactly where the pretrained path fails |
| `Embeddings.PretrainedIgnoresSizes` | naivenmt/embeddings/embedding.py:149-150 | a pretrained table does not depend on the name, the configured sizes or the partitioner |
| `Embeddings.WeightsNoConfigError` | naivenmt/embeddings/embedding.py:142-157 | building one table never raises the partitioning or shared-size error |
| `Embeddings.PartitionedWithFile` | naivenmt/embeddings/embedding.py:114 | an embedding file is configured while the scope is partitioned |
| `Embeddings.EncoderWeights` | naivenmt/embeddings/embedding.py:121-127 | the encoder's table is named `encoder_embedding` and built from the source side's settings: it fails only when both source files are set, is pretrained exactly then with one row per source vocabulary line, and is otherwise a `[src_vocab_size, src_embedding_size]` variable under the scope's partitioner |
| `Embeddings.DecoderWeights` | naivenmt/embeddings/embedding.py:133-139 | the same for the decoder's table, named `decoder_embedding`, from the target side's settings |
| `Embeddings.EmbeddingsOf` | naivenmt/embeddings/embedding.py:108-140 | the two tables or the first error of `_embedding`; characterised by the lemmas below |
| `Embeddings.PartitionedPretrainedIff` | naivenmt/embeddings/embedding.py:109-116 | the partitioning ValueError is raised exactly when an embedding file is set and more than one partition is asked for |
| `Embeddings.PartitionedTables` | naivenmt/embeddings/embedding.py:109-120 | after a successful build, a variable is partitioned exactly when more than one partition is asked for, and with more than one partition both tables are fresh variables |
| `Embeddings.SharedVocab` | naivenmt/embeddings/embedding.py:128-131 | with a shared vocabulary, the decoder gets the encoder's table, and the build succeeds only when the sizes agree |
| `Embeddings.SeparateVocab` | naivenmt/embeddings/embedding.py:132-140 | without sharing, the build succeeds exactly when neither side fails, and each side gets its own table |
| `Embeddings.SharedSizeMismatch` | naivenmt/embeddings/embedding.py:121-130 | the shared-size ValueError is raised exactly when the encoder's table was built, the vocabulary is shared and the sizes differ |
| `Embeddings.EncoderFirst` | naivenmt/embeddings/embedding.py:121-127 | an error building the encoder's table is the one reported |
| `Embeddings.SharingIgnoresTarget` | naivenmt/embeddings/embedding.py:114-131 | with a shared vocabulary, the target's files and embedding size do not matter, except that a target embedding file still counts against partitioning |
| `Embeddings.ConstructionOf` | naivenmt/embeddings/embedding.py:98-106 | the lookup tables refuse an unset vocabulary file before `_embedding` runs |
| `Embeddings.UnsetVocabularyIff` | naivenmt/embeddings/embedding.py:98-105 | the lookup tables' ValueError is raised exactly when the source or target vocabulary file is unset |
| `Embeddings.ConstructedChoice` | naivenmt/embeddings/embedding.py:98-106 | once constructed, a side's table is pretrained exactly when its embedding file is set; with sharing the decoder's is the encoder's |
| `Embeddings.Embedding.constructor` | naivenmt/embeddings/embedding.py:80-93 | stores the configuration; both table attributes start unset |
| `Embeddings.Embedding.EncoderEmbedding` | naivenmt/embeddings/embedding.py:215-217 | the `encoder_embedding` property: the encoder table attribute |
| `Embeddings.Embedding.DecoderEmbedding` | naivenmt/embeddings/embedding.py:219-221 | the `decoder_embedding` property: the decoder table attribute |
| `Embeddings.Embedding.BuildEmbeddings` | naivenmt/embeddings/embedding.py:108-140 | the tables are the ones the configuration calls for, or the error raised on the way. Both are new objects, and they are the same object exactly when the vocabulary is shared. On an error the decoder attribute is untouched, and the encoder attribute is set exactly when the encoder's table was built before the error |
| `Embeddings.Embedding.New` | naivenmt/embeddings/embedding.py:65-106 | construction raises the lookup tables' error when a vocabulary file is unset, and otherwise succeeds exactly when building both tables does. The getters then return the two tables, which are one object exactly when the vocabulary is shared |

## Left out

- Reading files: paths, encodings, missing or unreadable files, and the file object's
  line splitting are not modelled. A file is given as its sequence of decoded lines.
- Float parsing: the components of a line are kept as text. The ValueError that
  `float` raises on a malformed component is not modelled. That includes the empty
  component that two adjacent spaces produce.
- The loader's `assert` is modelled as always active. Running Python with `-O`,
  which removes it, is not modelled.
- `EmbeddingFiles.VectorOf`: stores each component's text in place of its float
  value, so two spellings of the same number count as different vectors.
- Lookup tables and lookups: the contents of the string-to-index and
  index-to-string tables, `unk`, `unk_id`, and
  `encoder_embedding_input`/`decoder_embedding_input` (lines 98-105 and 223-229) are
  not modelled. They are thin wrappers over the framework's lookup operations.
- `Embeddings.Embedding.New`: of the lookup tables' failures, only the refusal of
  an unset or empty vocabulary path is modelled. Failures while the framework later
  reads the vocabulary files are not.
- Framework machinery: dtypes, variable scopes and their names are not modelled,
  and partitioners are kept as their shard count. The values of trainable cells
  are left abstract: they are initial values the framework chooses.
- Variable reuse: when both tables are pretrained, `AUTO_REUSE` makes the two
  share one trainable `[3, size]` variable. If their widths differ, the
  framework raises a shape-conflict ValueError. Neither is modelled: each table's
  trainable rows are independent cells. Reuse of variables across several
  `Embedding` objects in one graph is also not modelled.
- Device placement: `/cpu:0` or `/gpu:0` is recorded on the variable. What the
  runtime does with it is not modelled.
- Sizes are natural numbers. The framework's errors for negative sizes or an
  unset embedding size on a fresh variable are not modelled.
