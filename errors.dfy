/**
 * The exceptions that building the embedding tables can raise, as values,
 * and the two wrapper types the model returns: `Option` for Python's `None`
 * or a value, `Result` for a value or a raised exception.
 */
module EmbeddingErrors {

  datatype Error =
    /** AssertionError "All embedding size should be same" while reading an embedding file. */
    | MixedVectorSizes
    /** TypeError from `[0.0] * None`: a trainable token must be zero-filled but no vector size is known. */
    | MissingVectorSize
    /** KeyError: a vocabulary token has no vector when the matrix rows are gathered. */
    | MissingToken(token: string)
    /** ValueError from numpy: the gathered rows do not all have the same length. */
    | RaggedMatrix
    /** ValueError from the framework's slice: fewer rows than trainable tokens. */
    | TooFewRows
    /** ValueError from the framework's variable creation: shape `[3, None]`.
        The pretrained path never reaches it (`PretrainedEmbedding.NoUndefinedShape`). */
    | UndefinedShape
    /** ValueError from the framework's concat: trainable block and frozen rows differ in width. */
    | WidthMismatch
    /** ValueError "Can't set num_partitions > 1 when using pretrained embedding". */
    | PartitionedPretrained
    /** ValueError "Share embedding but different src/tgt vocab size." */
    | SharedVocabSizeMismatch
    /** ValueError from the framework's lookup-table constructors: a vocabulary file path is unset or empty. */
    | UnsetVocabularyFile

  datatype Option<+T> = None | Some(value: T)

  datatype Result<+T> = Ok(value: T) | Err(error: Error) {
    predicate IsFailure() { Err? }

    function PropagateFailure<U>(): Result<U>
      requires Err?
    {
      Err(error)
    }

    function Extract(): T
      requires Ok?
    {
      value
    }
  }
}
