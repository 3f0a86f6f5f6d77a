/**
 * Reading the two text files the pretrained path needs: the vocabulary file
 * (one token per line) and the embedding file (a word followed by its
 * space-separated vector components on each line). A file is the sequence of
 * its already decoded lines.
 */
module EmbeddingFiles {
  import opened PyStr
  import opened EmbeddingErrors

  /** A vector component. The literal text of a component stands for the
      float it denotes; `Zero` is the `0.0` used to fill missing vectors. */
  datatype Scalar = Zero | Literal(text: string)

  type Vector = seq<Scalar>

  /** One line of an embedding file: the word and the text of its components. */
  datatype Entry = Entry(word: string, fields: seq<string>)

  /** What reading an embedding file yields: the dictionary and the vector
      size, `None` for a file without lines. */
  datatype Loaded = Loaded(dict: map<string, Vector>, size: Option<nat>)

  // ---------------------------------------------------------------------------
  // The vocabulary file

  /** The tokens of a vocabulary file: each line stripped, in file order. */
  function VocabOf(lines: seq<string>): seq<string>
  {
    seq(|lines|, i requires 0 <= i < |lines| => Strip(lines[i]))
  }

  /** Reads a vocabulary file, counting its lines as it goes. */
  method LoadVocab(lines: seq<string>) returns (vocab: seq<string>, vocabSize: nat)
    ensures vocabSize == |vocab| == |lines|
    ensures forall i :: 0 <= i < |lines| ==> vocab[i] == Strip(lines[i])
  {
    vocab := [];
    vocabSize := 0;
    for k := 0 to |lines|
      invariant vocabSize == |vocab| == k
      invariant forall i :: 0 <= i < k ==> vocab[i] == Strip(lines[i])
    {
      vocabSize := vocabSize + 1;
      vocab := vocab + [Strip(lines[k])];
    }
  }

  // ---------------------------------------------------------------------------
  // One line of the embedding file

  /** The word and components of a line: the space-separated tokens of the
      stripped line, the first one being the word. */
  function ParseLine(line: string): Entry
  {
    var tokens := Split(Strip(line), ' ');
    Entry(tokens[0], tokens[1..])
  }

  /** The word and components of a line, rejoined with single spaces, give
      back the stripped line, and none of them contains a space. */
  lemma ParseLineRejoins(line: string)
    ensures var e := ParseLine(line);
            && Join([e.word] + e.fields, ' ') == Strip(line)
            && forall t :: t in [e.word] + e.fields ==> ' ' !in t
  {
    var tokens := Split(Strip(line), ' ');
    assert tokens == [tokens[0]] + tokens[1..];
  }

  /** Any word and components that rejoin to the stripped line, none of which
      contains a space, are the ones ParseLine finds. */
  lemma ParseLineUnique(line: string, word: string, fields: seq<string>)
    requires Join([word] + fields, ' ') == Strip(line)
    requires forall t :: t in [word] + fields ==> ' ' !in t
    ensures ParseLine(line) == Entry(word, fields)
  {
    var parts := [word] + fields;
    forall i | 0 <= i < |parts| ensures ' ' !in parts[i] {
      assert parts[i] in parts;
    }
    SplitJoin(parts, ' ');
    assert Split(Strip(line), ' ') == parts;
    assert parts[0] == word && parts[1..] == fields;
  }

  /** The components of a line as a vector (the float conversion is abstract). */
  function VectorOf(fields: seq<string>): (v: Vector)
    ensures |v| == |fields|
  {
    seq(|fields|, i requires 0 <= i < |fields| => Literal(fields[i]))
  }

  /** The entries of an embedding file, one per line. */
  function Parsed(lines: seq<string>): (es: seq<Entry>)
    ensures |es| == |lines|
  {
    seq(|lines|, i requires 0 <= i < |lines| => ParseLine(lines[i]))
  }

  // ---------------------------------------------------------------------------
  // The embedding file as a whole, over its parsed entries

  /** The dictionary after all entries: each binds its word to its vector,
      later entries overriding earlier ones. */
  function DictOf(es: seq<Entry>): map<string, Vector>
  {
    if es == [] then map[]
    else
      var last := es[|es| - 1];
      DictOf(es[..|es| - 1])[last.word := VectorOf(last.fields)]
  }

  /** The vector size fixed by the entries: the length of the first vector that
      is not empty, 0 when there is none. A zero length never fixes the size,
      since the source tests the size for truth. */
  function FixedSize(es: seq<Entry>): nat
  {
    if es == [] then 0
    else
      var before := FixedSize(es[..|es| - 1]);
      if before != 0 then before else |es[|es| - 1].fields|
  }

  /** The size the loader returns: `None` for an empty file, else FixedSize. */
  function SizeOf(es: seq<Entry>): Option<nat>
  {
    if es == [] then None else Some(FixedSize(es))
  }

  /** The loader's assertion never fails: once a non-empty vector has been
      read, every later vector has its length. */
  predicate Uniform(es: seq<Entry>)
  {
    forall i, j :: 0 <= i < j < |es| && |es[i].fields| > 0 ==> |es[j].fields| == |es[i].fields|
  }

  /** Reads an embedding file. Fails exactly when the vector lengths are not
      uniform; otherwise returns the dictionary of the lines and their size. */
  method LoadEmbeddingTxt(lines: seq<string>) returns (r: Result<Loaded>)
    ensures r.Ok? <==> Uniform(Parsed(lines))
    ensures r.Ok? ==> r.value == Loaded(DictOf(Parsed(lines)), SizeOf(Parsed(lines)))
    ensures r.Err? ==> r.error == MixedVectorSizes
  {
    ghost var es := Parsed(lines);
    var dict: map<string, Vector> := map[];
    var size: Option<nat> := None;
    assert es[..0] == [];
    for k := 0 to |lines|
      invariant Uniform(es[..k])
      invariant dict == DictOf(es[..k])
      invariant size == SizeOf(es[..k])
    {
      var e := ParseLine(lines[k]);
      LoadStep(es, k, dict, size);
      dict := dict[e.word := VectorOf(e.fields)];
      if size.Some? && size.value != 0 {
        if size.value != |e.fields| {
          return Err(MixedVectorSizes);
        }
      } else {
        size := Some(|e.fields|);
      }
    }
    assert es[..|lines|] == es;
    return Ok(Loaded(dict, size));
  }

  /** One pass of the loader's loop body, from the state after the first `k`
      entries: the assertion fails exactly when the next entry breaks
      uniformity, which then no longer holds for the whole file; otherwise the
      dictionary and the size become those of the first `k + 1` entries. */
  lemma LoadStep(es: seq<Entry>, k: nat, dict: map<string, Vector>, size: Option<nat>)
    requires k < |es|
    requires Uniform(es[..k]) && dict == DictOf(es[..k]) && size == SizeOf(es[..k])
    ensures var fails := size.Some? && size.value != 0 && size.value != |es[k].fields|;
            && (fails ==> !Uniform(es))
            && (!fails ==> Uniform(es[..k + 1]))
            && DictOf(es[..k + 1]) == dict[es[k].word := VectorOf(es[k].fields)]
            && SizeOf(es[..k + 1]) == Some(if size.Some? && size.value != 0 then size.value else |es[k].fields|)
  {
    PrefixStep(es, k);
    if size.Some? && size.value != 0 && size.value != |es[k].fields| {
      UniformPrefix(es, k + 1);
    }
  }

  // ---------------------------------------------------------------------------
  // Properties of the embedding file

  /** FixedSize is the length of the first non-empty vector: the entries before
      it have empty vectors, and when it is 0 all vectors are empty. */
  lemma {:induction false} FixedSizeIsFirstNonEmpty(es: seq<Entry>)
    ensures FixedSize(es) == 0 ==> forall j :: 0 <= j < |es| ==> |es[j].fields| == 0
    ensures FixedSize(es) > 0 ==> exists k :: 0 <= k < |es| && |es[k].fields| == FixedSize(es) &&
                                    forall j :: 0 <= j < k ==> |es[j].fields| == 0
  {
    if es != [] {
      var init := es[..|es| - 1];
      FixedSizeIsFirstNonEmpty(init);
      assert forall j :: 0 <= j < |init| ==> es[j] == init[j];
      if FixedSize(init) > 0 {
        var k :| 0 <= k < |init| && |init[k].fields| == FixedSize(init) &&
                 forall j :: 0 <= j < k ==> |init[j].fields| == 0;
        assert |es[k].fields| == FixedSize(es);
      } else if |es[|es| - 1].fields| > 0 {
        assert |es[|init|].fields| == FixedSize(es);
      }
    }
  }

  /** Under Uniform, every non-empty vector has the fixed size. */
  lemma UniformLengths(es: seq<Entry>)
    requires Uniform(es)
    ensures forall j :: 0 <= j < |es| && |es[j].fields| > 0 ==> |es[j].fields| == FixedSize(es)
  {
    FixedSizeIsFirstNonEmpty(es);
    if FixedSize(es) > 0 {
      var k :| 0 <= k < |es| && |es[k].fields| == FixedSize(es) &&
               forall j :: 0 <= j < k ==> |es[j].fields| == 0;
      forall j | 0 <= j < |es| && |es[j].fields| > 0 ensures |es[j].fields| == FixedSize(es) {
        if j != k {
          assert k < j;
        }
      }
    }
  }

  /** One more entry keeps the lengths uniform exactly when it passes the
      loader's assertion against the size fixed so far. */
  lemma UniformStep(es: seq<Entry>)
    requires es != []
    ensures var init := es[..|es| - 1];
            Uniform(es) <==> Uniform(init) && (FixedSize(init) == 0 || |es[|es| - 1].fields| == FixedSize(init))
  {
    if Uniform(es) {
      UniformDropLast(es);
    }
    var init := es[..|es| - 1];
    if Uniform(init) && (FixedSize(init) == 0 || |es[|es| - 1].fields| == FixedSize(init)) {
      UniformAppend(es);
    }
  }

  /** A uniform file stays uniform without its last entry, and that entry
      has the size fixed before it, if any. */
  lemma UniformDropLast(es: seq<Entry>)
    requires es != [] && Uniform(es)
    ensures var init := es[..|es| - 1];
            Uniform(init) && (FixedSize(init) == 0 || |es[|es| - 1].fields| == FixedSize(init))
  {
    var init := es[..|es| - 1];
    var n := |es| - 1;
    assert Uniform(init) by {
      forall i, j | 0 <= i < j < |init| && |init[i].fields| > 0 ensures |init[j].fields| == |init[i].fields| {
        assert es[i] == init[i] && es[j] == init[j];
      }
    }
    if FixedSize(init) > 0 {
      FixedSizeIsFirstNonEmpty(init);
      var k :| 0 <= k < |init| && |init[k].fields| == FixedSize(init) &&
               forall j :: 0 <= j < k ==> |init[j].fields| == 0;
      assert es[k] == init[k] && k < n;
    }
  }

  /** An entry with the size fixed so far, or any entry while none is
      fixed, keeps a uniform file uniform. */
  lemma UniformAppend(es: seq<Entry>)
    requires es != []
    requires var init := es[..|es| - 1];
             Uniform(init) && (FixedSize(init) == 0 || |es[|es| - 1].fields| == FixedSize(init))
    ensures Uniform(es)
  {
    var init := es[..|es| - 1];
    var n := |es| - 1;
    UniformLengths(init);
    forall i, j | 0 <= i < j < |es| && |es[i].fields| > 0 ensures |es[j].fields| == |es[i].fields| {
      assert es[i] == init[i];
      if j < n {
        assert es[j] == init[j];
      } else {
        assert |init[i].fields| > 0;
      }
    }
  }

  /** How the dictionary, the size and uniformity change from one prefix of
      the entries to the next: the loader's loop body. */
  lemma PrefixStep(es: seq<Entry>, k: nat)
    requires k < |es|
    ensures DictOf(es[..k + 1]) == DictOf(es[..k])[es[k].word := VectorOf(es[k].fields)]
    ensures FixedSize(es[..k + 1]) == if FixedSize(es[..k]) != 0 then FixedSize(es[..k]) else |es[k].fields|
    ensures Uniform(es[..k + 1]) <==> Uniform(es[..k]) && (FixedSize(es[..k]) == 0 || |es[k].fields| == FixedSize(es[..k]))
  {
    var next := es[..k + 1];
    assert next[..k] == es[..k] && next[k] == es[k];
    UniformStep(next);
  }

  /** A prefix that is not uniform cannot be extended to a uniform file. */
  lemma UniformPrefix(es: seq<Entry>, k: nat)
    requires k <= |es|
    requires !Uniform(es[..k])
    ensures !Uniform(es)
  {
    var p := es[..k];
    var i, j :| 0 <= i < j < |p| && |p[i].fields| > 0 && |p[j].fields| != |p[i].fields|;
    assert p[i] == es[i] && p[j] == es[j];
  }

  /** Every word of the file, and no other string, is a key of its dictionary. */
  lemma {:induction false} DictOfKeys(es: seq<Entry>)
    ensures forall w :: w in DictOf(es) <==> exists i :: 0 <= i < |es| && es[i].word == w
  {
    if es != [] {
      var init := es[..|es| - 1];
      DictOfKeys(init);
      assert forall i :: 0 <= i < |init| ==> es[i] == init[i];
      forall w | w in DictOf(es) ensures exists i :: 0 <= i < |es| && es[i].word == w {
        if w != es[|init|].word {
          assert w in DictOf(init);
          var i :| 0 <= i < |init| && init[i].word == w;
          assert es[i].word == w;
        }
      }
    }
  }

  /** A word is bound to the vector of the last entry that has it. */
  lemma {:induction false} DictOfLastWins(es: seq<Entry>, i: nat)
    requires i < |es|
    requires forall j :: i < j < |es| ==> es[j].word != es[i].word
    ensures es[i].word in DictOf(es)
    ensures DictOf(es)[es[i].word] == VectorOf(es[i].fields)
  {
    var init := es[..|es| - 1];
    if i < |init| {
      assert forall j :: 0 <= j < |init| ==> es[j] == init[j];
      DictOfLastWins(init, i);
    }
  }

  /** Every vector of the dictionary is the vector of some entry with its word. */
  lemma {:induction false} DictOfValues(es: seq<Entry>)
    ensures forall w :: w in DictOf(es) ==> exists i :: 0 <= i < |es| && es[i].word == w && DictOf(es)[w] == VectorOf(es[i].fields)
  {
    if es != [] {
      var init := es[..|es| - 1];
      DictOfValues(init);
      assert forall i :: 0 <= i < |init| ==> es[i] == init[i];
      forall w | w in DictOf(es)
        ensures exists i :: 0 <= i < |es| && es[i].word == w && DictOf(es)[w] == VectorOf(es[i].fields)
      {
        if w != es[|init|].word {
          assert w in DictOf(init);
          var i :| 0 <= i < |init| && init[i].word == w && DictOf(init)[w] == VectorOf(init[i].fields);
          assert es[i].word == w;
        }
      }
    }
  }

  /** Under Uniform, every vector of the dictionary is empty or of the fixed size. */
  lemma {:induction false} DictOfLengths(es: seq<Entry>)
    requires Uniform(es)
    ensures forall w :: w in DictOf(es) ==> |DictOf(es)[w]| == 0 || |DictOf(es)[w]| == FixedSize(es)
  {
    if es != [] {
      var init := es[..|es| - 1];
      UniformStep(es);
      DictOfLengths(init);
      UniformLengths(es);
      assert FixedSize(init) > 0 ==> FixedSize(es) == FixedSize(init);
    }
  }
}
