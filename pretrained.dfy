/**
 * Building a table from a vocabulary file and a pretrained embedding file:
 * the first three vocabulary tokens get trainable rows, every other token the
 * frozen vector the embedding file gives it.
 */
module PretrainedEmbedding {
  import opened PyStr
  import opened EmbeddingErrors
  import opened EmbeddingFiles

  /** How many leading vocabulary tokens stay trainable. */
  const NumTrainableTokens: nat := 3

  /** An entry of a table: a frozen pretrained value, or a parameter the
      framework trains (its initial value is the framework's choice). */
  datatype Cell = Frozen(x: Scalar) | Trainable

  type Matrix = seq<seq<Cell>>

  function Min(a: nat, b: nat): nat { if a <= b then a else b }

  function SizeOr(size: Option<nat>, default: nat): nat { if size.Some? then size.value else default }

  /** `[0.0] * n`. */
  function Zeros(n: nat): (v: Vector)
    ensures |v| == n && forall k :: 0 <= k < n ==> v[k] == Zero
  {
    seq(n, _ => Zero)
  }

  // ---------------------------------------------------------------------------
  // Zero-filling the trainable tokens

  /** The dictionary once every token of `tokens` it lacks is bound to a zero
      vector of length `n`; nothing else is added or changed. */
  function ZeroFilled(dict: map<string, Vector>, tokens: seq<string>, n: nat): (d: map<string, Vector>)
    ensures forall w :: w in d <==> w in dict || w in tokens
    ensures forall w :: w in dict ==> d[w] == dict[w]
    ensures forall t :: t in tokens && t !in dict ==> d[t] == Zeros(n)
  {
    if tokens == [] then dict
    else
      var init := tokens[..|tokens| - 1];
      var d := ZeroFilled(dict, init, n);
      var t := tokens[|tokens| - 1];
      assert tokens == init + [t];
      if t in d then d else d[t := Zeros(n)]
  }

  /** The fill loop. It fails, as `[0.0] * None` does, when a token is missing
      and the embedding file fixed no size; otherwise it zero-fills. */
  method FillTrainable(dict: map<string, Vector>, tokens: seq<string>, size: Option<nat>)
    returns (r: Result<map<string, Vector>>)
    ensures r.Err? <==> size.None? && exists t :: t in tokens && t !in dict
    ensures r.Err? ==> r.error == MissingVectorSize
    ensures r.Ok? ==> r.value == ZeroFilled(dict, tokens, SizeOr(size, 0))
  {
    var d := dict;
    for k := 0 to |tokens|
      invariant d == ZeroFilled(dict, tokens[..k], SizeOr(size, 0))
      invariant size.None? ==> forall t :: t in tokens[..k] ==> t in dict
    {
      ZeroFilledStep(dict, tokens, k, SizeOr(size, 0));
      assert tokens[..k + 1] == tokens[..k] + [tokens[k]];
      var token := tokens[k];
      if token !in d {
        if size.None? {
          return Err(MissingVectorSize);
        }
        d := d[token := Zeros(size.value)];
      }
    }
    assert tokens[..|tokens|] == tokens;
    return Ok(d);
  }

  /** One pass of the fill loop: the next token is bound to zeros unless it
      already has a vector. */
  lemma ZeroFilledStep(dict: map<string, Vector>, tokens: seq<string>, k: nat, n: nat)
    requires k < |tokens|
    ensures var d := ZeroFilled(dict, tokens[..k], n);
            ZeroFilled(dict, tokens[..k + 1], n) == if tokens[k] in d then d else d[tokens[k] := Zeros(n)]
  {
    assert tokens[..k + 1][..k] == tokens[..k];
  }

  // ---------------------------------------------------------------------------
  // Gathering the rows in vocabulary order

  /** `[dict[token] for token in vocab]`: row `i` is the vector of token `i`;
      the first token without a vector raises a KeyError. */
  function RowsOf(dict: map<string, Vector>, vocab: seq<string>): (r: Result<seq<Vector>>)
    ensures r.Ok? <==> forall t :: t in vocab ==> t in dict
    ensures r.Ok? ==> |r.value| == |vocab| && forall i :: 0 <= i < |vocab| ==> r.value[i] == dict[vocab[i]]
    ensures r.Err? ==> exists k :: 0 <= k < |vocab| && r.error == MissingToken(vocab[k]) && vocab[k] !in dict &&
                                   forall j :: 0 <= j < k ==> vocab[j] in dict
  {
    if vocab == [] then Ok([])
    else if vocab[0] !in dict then Err(MissingToken(vocab[0]))
    else
      var rest := RowsOf(dict, vocab[1..]);
      assert forall t :: t in vocab ==> t == vocab[0] || t in vocab[1..];
      if rest.Err? then
        RowsOfShift(dict, vocab, rest.error);
        Err(rest.error)
      else
        Ok([dict[vocab[0]]] + rest.value)
  }

  /** The first missing token of the tail, when the head has a vector, is the
      first missing token of the whole vocabulary. */
  lemma RowsOfShift(dict: map<string, Vector>, vocab: seq<string>, e: Error)
    requires vocab != [] && vocab[0] in dict
    requires exists k :: 0 <= k < |vocab| - 1 && e == MissingToken(vocab[1..][k]) && vocab[1..][k] !in dict &&
                         forall j :: 0 <= j < k ==> vocab[1..][j] in dict
    ensures exists k :: 0 <= k < |vocab| && e == MissingToken(vocab[k]) && vocab[k] !in dict &&
                        forall j :: 0 <= j < k ==> vocab[j] in dict
  {
    var k :| 0 <= k < |vocab| - 1 && e == MissingToken(vocab[1..][k]) && vocab[1..][k] !in dict &&
             forall j :: 0 <= j < k ==> vocab[1..][j] in dict;
    assert forall j :: 1 <= j < k + 1 ==> vocab[j] == vocab[1..][j - 1];
    assert vocab[k + 1] == vocab[1..][k];
  }

  // ---------------------------------------------------------------------------
  // Splitting off the trainable prefix and joining it back

  /** The rows form a matrix: they all have the same length. */
  predicate Rectangular(rows: seq<Vector>)
  {
    forall i, j :: 0 <= i < |rows| && 0 <= j < |rows| ==> |rows[i]| == |rows[j]|
  }

  /** A pretrained vector as frozen cells. */
  function Freeze(v: Vector): (row: seq<Cell>)
    ensures |row| == |v| && forall k :: 0 <= k < |v| ==> row[k] == Frozen(v[k])
  {
    seq(|v|, k requires 0 <= k < |v| => Frozen(v[k]))
  }

  /** A row of the trainable variable. */
  function TrainableRow(n: nat): (row: seq<Cell>)
    ensures |row| == n && forall k :: 0 <= k < n ==> row[k] == Trainable
  {
    seq(n, _ => Trainable)
  }

  /** The rows as a constant matrix, its rows from the third on (the slice),
      a trainable `[3, size]` variable, and the two concatenated. Each step
      that can raise does so in the order the source runs them. */
  function Assemble(rows: seq<Vector>, size: Option<nat>): (r: Result<Matrix>)
    ensures r.Ok? <==> Rectangular(rows) && |rows| >= NumTrainableTokens && size.Some? && |rows[0]| == size.value
    ensures r.Err? ==> (r.error == RaggedMatrix <==> !Rectangular(rows))
    ensures r.Err? && Rectangular(rows) ==> (r.error == TooFewRows <==> |rows| < NumTrainableTokens)
    ensures r.Err? && Rectangular(rows) && |rows| >= NumTrainableTokens ==> (r.error == UndefinedShape <==> size.None?)
    ensures r.Err? && Rectangular(rows) && |rows| >= NumTrainableTokens && size.Some? ==> r.error == WidthMismatch
    ensures r.Err? ==> r.error in {RaggedMatrix, TooFewRows, UndefinedShape, WidthMismatch}
    ensures r.Ok? ==> |r.value| == |rows| && forall i :: 0 <= i < |rows| ==> |r.value[i]| == size.value
    ensures r.Ok? ==> forall i :: 0 <= i < NumTrainableTokens ==> r.value[i] == TrainableRow(size.value)
    ensures r.Ok? ==> forall i :: NumTrainableTokens <= i < |rows| ==> r.value[i] == Freeze(rows[i])
  {
    if !Rectangular(rows) then Err(RaggedMatrix)
    else
      var constant := seq(|rows|, i requires 0 <= i < |rows| => Freeze(rows[i]));
      if |constant| < NumTrainableTokens then Err(TooFewRows)
      else
        var frozen := constant[NumTrainableTokens..];
        if size.None? then Err(UndefinedShape)
        else
          var variable := seq(NumTrainableTokens, _ => TrainableRow(size.value));
          if |rows[0]| != size.value then Err(WidthMismatch)
          else Ok(variable + frozen)
  }

  // ---------------------------------------------------------------------------
  // The whole pretrained path

  /** `vocab[:3]`. */
  function TrainableTokens(vocab: seq<string>): seq<string>
  {
    vocab[..Min(NumTrainableTokens, |vocab|)]
  }

  /** The dictionary of the embedding file once the trainable tokens are zero-filled. */
  function Filled(vocab: seq<string>, es: seq<Entry>): map<string, Vector>
  {
    ZeroFilled(DictOf(es), TrainableTokens(vocab), SizeOr(SizeOf(es), 0))
  }

  /** The table built from the tokens of a vocabulary file and the entries
      of an embedding file, failing where the source raises. */
  function PretrainedOf(vocab: seq<string>, es: seq<Entry>): (r: Result<Matrix>)
    ensures r.Err? ==> !r.error.PartitionedPretrained? && !r.error.SharedVocabSizeMismatch? && !r.error.UnsetVocabularyFile?
  {
    if !Uniform(es) then Err(MixedVectorSizes)
    else if SizeOf(es).None? && exists t :: t in TrainableTokens(vocab) && t !in DictOf(es) then Err(MissingVectorSize)
    else
      match RowsOf(Filled(vocab, es), vocab)
      case Err(e) => Err(e)
      case Ok(rows) => Assemble(rows, SizeOf(es))
  }

  /** The table built from a vocabulary file and an embedding file. */
  function PretrainedMatrix(vocabLines: seq<string>, embeddingLines: seq<string>): Result<Matrix>
  {
    PretrainedOf(VocabOf(vocabLines), Parsed(embeddingLines))
  }

  /** `_create_pretrained_embedding`: loads both files, zero-fills the
      trainable tokens, gathers the rows and assembles the table. */
  method CreatePretrainedEmbedding(vocabLines: seq<string>, embeddingLines: seq<string>) returns (r: Result<Matrix>)
    ensures r == PretrainedMatrix(vocabLines, embeddingLines)
  {
    var vocab, _ := LoadVocab(vocabLines);
    assert vocab == VocabOf(vocabLines);
    var trainable := TrainableTokens(vocab);
    var loaded :- LoadEmbeddingTxt(embeddingLines);
    var dict :- FillTrainable(loaded.dict, trainable, loaded.size);
    var rows :- RowsOf(dict, vocab);
    r := Assemble(rows, loaded.size);
  }

  // ---------------------------------------------------------------------------
  // Properties of the pretrained path

  /** A pretrained table has one row per vocabulary token, at least three, and
      every row is as wide as the size the embedding file fixes, whatever
      embedding size the caller configured. */
  lemma PretrainedShape(vocab: seq<string>, es: seq<Entry>)
    requires PretrainedOf(vocab, es).Ok?
    ensures var m := PretrainedOf(vocab, es).value;
            && |m| == |vocab| >= NumTrainableTokens
            && es != []
            && forall i :: 0 <= i < |m| ==> |m[i]| == FixedSize(es)
  {
  }

  /** A pretrained table is the assembly of the gathered rows at the size the
      embedding file fixes. */
  lemma PretrainedAssembled(vocab: seq<string>, es: seq<Entry>)
    requires PretrainedOf(vocab, es).Ok?
    ensures Uniform(es) && SizeOf(es) == Some(FixedSize(es))
    ensures RowsOf(Filled(vocab, es), vocab).Ok?
    ensures PretrainedOf(vocab, es) == Assemble(RowsOf(Filled(vocab, es), vocab).value, SizeOf(es))
  {
  }

  /** Row order: the first three rows are the trainable variable's; row `i`
      after them holds the vector the embedding file gives token `i`, or zeros
      when that token is missing from the file but is also one of the first
      three tokens. */
  lemma PretrainedRows(vocab: seq<string>, es: seq<Entry>, i: nat)
    requires PretrainedOf(vocab, es).Ok?
    requires i < |vocab|
    ensures var m := PretrainedOf(vocab, es).value;
            var dict := DictOf(es);
            && (i < NumTrainableTokens ==> m[i] == TrainableRow(FixedSize(es)))
            && (i >= NumTrainableTokens && vocab[i] in dict ==> m[i] == Freeze(dict[vocab[i]]))
            && (i >= NumTrainableTokens && vocab[i] !in dict ==>
                  vocab[i] in vocab[..NumTrainableTokens] && m[i] == Freeze(Zeros(FixedSize(es))))
  {
    PretrainedAssembled(vocab, es);
    var filled := Filled(vocab, es);
    var rows := RowsOf(filled, vocab).value;
    var m := PretrainedOf(vocab, es).value;
    if i >= NumTrainableTokens {
      assert m[i] == Freeze(rows[i]);
      assert rows[i] == filled[vocab[i]];
      FilledAt(vocab, es, i);
      assert TrainableTokens(vocab) == vocab[..NumTrainableTokens];
    }
  }

  /** The filled vector of token `i`: the file's, or zeros for a trainable
      token the file lacks. */
  lemma FilledAt(vocab: seq<string>, es: seq<Entry>, i: nat)
    requires i < |vocab|
    ensures var dict := DictOf(es);
            var filled := Filled(vocab, es);
            && (vocab[i] in dict ==> vocab[i] in filled && filled[vocab[i]] == dict[vocab[i]])
            && (vocab[i] !in dict && vocab[i] in filled ==>
                  vocab[i] in TrainableTokens(vocab) && filled[vocab[i]] == Zeros(SizeOr(SizeOf(es), 0)))
  {
  }

  /** A KeyError names a token past the trainable prefix that the embedding
      file lacks; the trainable tokens themselves never raise it. */
  lemma PretrainedMissingToken(vocab: seq<string>, es: seq<Entry>, token: string)
    requires PretrainedOf(vocab, es) == Err(MissingToken(token))
    ensures token !in DictOf(es)
    ensures token !in TrainableTokens(vocab)
    ensures exists i :: NumTrainableTokens <= i < |vocab| && vocab[i] == token
  {
    var filled := Filled(vocab, es);
    assert RowsOf(filled, vocab) == Err(MissingToken(token)) by {
      var rows := RowsOf(filled, vocab);
      assert rows.Ok? ==> PretrainedOf(vocab, es) == Assemble(rows.value, SizeOf(es));
    }
    assert exists k :: NumTrainableTokens <= k < |vocab| && vocab[k] == token && token !in filled by {
      var k :| 0 <= k < |vocab| && MissingToken(token) == MissingToken(vocab[k]) && vocab[k] !in filled;
    }
  }

  /** The loader's assertion is the only source of MixedVectorSizes. */
  lemma PretrainedMixedSizes(vocab: seq<string>, es: seq<Entry>)
    ensures PretrainedOf(vocab, es) == Err(MixedVectorSizes) <==> !Uniform(es)
  {
  }

  /** A non-empty embedding file whose lines all carry `n > 0` components is
      uniform, fixes size `n`, and binds every word to a vector of length `n`. */
  lemma WellFormedFile(es: seq<Entry>, n: nat)
    requires es != [] && n > 0
    requires forall j :: 0 <= j < |es| ==> |es[j].fields| == n
    ensures Uniform(es) && SizeOf(es) == Some(n)
    ensures forall w :: w in DictOf(es) ==> |DictOf(es)[w]| == n
  {
    FixedSizeIsFirstNonEmpty(es);
    assert |es[0].fields| == n;
    DictOfValues(es);
  }

  /** When every word has a vector of length `n` and every token past the
      trainable prefix has a vector, the rows are gathered and all have length `n`. */
  lemma FilledRows(vocab: seq<string>, es: seq<Entry>, n: nat)
    requires SizeOf(es) == Some(n)
    requires forall w :: w in DictOf(es) ==> |DictOf(es)[w]| == n
    requires forall i :: NumTrainableTokens <= i < |vocab| ==> vocab[i] in DictOf(es)
    ensures RowsOf(Filled(vocab, es), vocab).Ok?
    ensures forall i :: 0 <= i < |vocab| ==> |RowsOf(Filled(vocab, es), vocab).value[i]| == n
  {
    var filled := Filled(vocab, es);
    assert forall t :: t in vocab ==> t in filled by {
      forall t | t in vocab ensures t in filled {
        var i :| 0 <= i < |vocab| && vocab[i] == t;
        if i < NumTrainableTokens {
          assert t in TrainableTokens(vocab);
        }
      }
    }
    var rows := RowsOf(filled, vocab).value;
    forall i | 0 <= i < |vocab| ensures |rows[i]| == n {
      assert rows[i] == filled[vocab[i]] && vocab[i] in vocab;
    }
  }

  /** The well-formed case: a non-empty embedding file whose lines all carry
      `n > 0` components, and a vocabulary of at least three tokens each of
      which past the third appears in the file, give a table of width `n`. */
  lemma PretrainedSucceeds(vocab: seq<string>, es: seq<Entry>, n: nat)
    requires |vocab| >= NumTrainableTokens
    requires es != [] && n > 0
    requires forall j :: 0 <= j < |es| ==> |es[j].fields| == n
    requires forall i :: NumTrainableTokens <= i < |vocab| ==> vocab[i] in DictOf(es)
    ensures PretrainedOf(vocab, es).Ok?
    ensures forall i :: 0 <= i < |vocab| ==> |PretrainedOf(vocab, es).value[i]| == n
  {
    WellFormedFile(es, n);
    FilledRows(vocab, es, n);
    var rows := RowsOf(Filled(vocab, es), vocab).value;
    assert Rectangular(rows) && |rows| == |vocab| && |rows[0]| == n;
  }

  /** The trainable variable's width is always known when it is created: only
      an empty embedding file fixes no size, and then an empty vocabulary has
      too few rows while a non-empty one fails the zero-fill first. */
  lemma NoUndefinedShape(vocab: seq<string>, es: seq<Entry>)
    ensures PretrainedOf(vocab, es) != Err(UndefinedShape)
  {
    if Uniform(es) && es == [] && vocab != [] {
      assert vocab[0] in TrainableTokens(vocab) && DictOf(es) == map[];
    }
  }
}
