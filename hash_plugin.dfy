/**
 * The "Hash Records" step at run time (`HashPDIPlugin`): for each row it looks up the
 * input and output fields in the output schema, hashes the input text with
 * MurmurHash3 (128 bits, low 64 kept) under the configured seed, and writes the hash
 * into the output cell. The output schema is computed once, on the first row.
 */
module HashPlugin {
  import opened Wrappers
  import opened JavaLang
  import opened Kettle
  import opened HashPluginMeta

  /** The seed used when the configured one narrows to a non-positive `int`: 2^30 - 1. */
  const LegacySeed: Int32 := 1073741823

  /**
   * The library calls the step makes and that are not part of this model:
   * `Hashing.murmur3_128(seed).hashBytes(bytes).asLong()` and `String.getBytes()`
   * (the platform's default charset). Any pair of functions may stand here.
   */
  datatype HashLibrary = HashLibrary(murmur3AsLong: (Int32, seq<Byte>) -> Int64, getBytes: string -> seq<Byte>)

  /** The seed `murmurhash3` hands to the hash: the configured `long` narrowed to an
    * `int`, replaced by the legacy seed when that is not positive. */
  function EffectiveSeed(seedValue: Int64): (seed: Int32)
    ensures seed > 0
    ensures IntValue(seedValue) > 0 ==> seed == IntValue(seedValue)
    ensures IntValue(seedValue) <= 0 ==> seed == LegacySeed
  {
    var seed := IntValue(seedValue);
    if seed <= 0 then LegacySeed else seed
  }

  /** `murmurhash3(text)`: the low 64 bits of the 128-bit MurmurHash3 of the text's bytes. */
  function Murmurhash3(lib: HashLibrary, seedValue: Int64, text: string): (h: Int64)
    ensures IntValue(seedValue) > 0 ==> h == lib.murmur3AsLong(IntValue(seedValue), lib.getBytes(text))
    ensures IntValue(seedValue) <= 0 ==> h == lib.murmur3AsLong(LegacySeed, lib.getBytes(text))
  {
    lib.murmur3AsLong(EffectiveSeed(seedValue), lib.getBytes(text))
  }

  /** Both defaults of the seed, 0 for a new step and -1 for settings without a seed
    * element, select the legacy seed. */
  lemma DefaultSeedsSelectLegacySeed()
    ensures EffectiveSeed(DefaultConfig.seedValue) == LegacySeed
    ensures EffectiveSeed(MissingSeed) == LegacySeed
  {
  }

  /** Narrowing keeps the low 32 bits: 2^32 narrows to 0 and so selects the legacy seed,
    * 2^32 + 42 selects 42, and 2^31 narrows to a negative `int`. */
  lemma SeedNarrowingExamples()
    ensures EffectiveSeed(42) == 42
    ensures EffectiveSeed(0x1_0000_0000) == LegacySeed
    ensures EffectiveSeed(0x1_0000_002A) == 42
    ensures EffectiveSeed(0x8000_0000) == LegacySeed
  {
  }

  /** Only the low 32 bits of the configured seed matter: seeds that agree on them
    * give the same hash for every text. */
  lemma SeedLowBitsDecide(lib: HashLibrary, s1: Int64, s2: Int64, text: string)
    requires (s1 - s2) % 0x1_0000_0000 == 0
    ensures Murmurhash3(lib, s1, text) == Murmurhash3(lib, s2, text)
  {
    assert s1 % 0x1_0000_0000 == s2 % 0x1_0000_0000;
  }

  /** The runtime failures of `hashRow`: the input cell holds null (`text.getBytes()`
    * throws) or an object that is not a `String` (the cast throws). */
  datatype StepError = NullPointerException | ClassCastException

  /**
   * What `hashRow` does to a row under a schema: when both fields resolve, the output
   * cell receives the hash of the input cell's text; otherwise nothing happens.
   */
  function HashRowResult(lib: HashLibrary, config: StepConfig, schema: seq<ValueMeta>, row: seq<RowValue>)
    : (r: Result<seq<RowValue>, StepError>)
    requires |schema| <= |row|
    ensures var idx, oidx := FirstIndexOf(schema, config.inField), FirstIndexOf(schema, config.outField);
      (idx < 0 || oidx < 0 ==> r == Success(row))
      && (idx >= 0 && oidx >= 0 ==>
            (r.Success? <==> row[idx].Text?)
            && (row[idx] == Null ==> r == Failure(NullPointerException))
            && (row[idx].Integer? || row[idx].Other? ==> r == Failure(ClassCastException)))
    ensures r.Success? ==> |r.value| == |row|
    ensures r.Success? ==> forall i :: 0 <= i < |row| && i != FirstIndexOf(schema, config.outField) ==> r.value[i] == row[i]
    ensures var idx, oidx := FirstIndexOf(schema, config.inField), FirstIndexOf(schema, config.outField);
      idx >= 0 && oidx >= 0 && row[idx].Text? ==>
        r.value[oidx] == Integer(Murmurhash3(lib, config.seedValue, row[idx].s))
  {
    var idx := FirstIndexOf(schema, config.inField);
    var oidx := FirstIndexOf(schema, config.outField);
    if idx >= 0 && oidx >= 0 then
      match row[idx]
      case Text(text) => Success(row[oidx := Integer(Murmurhash3(lib, config.seedValue, text))])
      case Null => Failure(NullPointerException)
      case _ => Failure(ClassCastException)
    else
      Success(row)
  }

  /**
   * A row of an incoming schema that lacks the output field gets the hash in the
   * appended last cell: after padding to the output schema, the row is the old row
   * followed by the hash of its input text.
   */
  lemma {:induction false} HashAppendsOutputCell(
    lib: HashLibrary, config: StepConfig, fields: seq<ValueMeta>, origin: string, row: seq<RowValue>)
    requires |row| == |fields|
    requires FirstIndexOf(fields, config.outField) < 0
    requires FirstIndexOf(fields, config.inField) >= 0
    requires row[FirstIndexOf(fields, config.inField)].Text?
    ensures var schema := OutputSchema(fields, config.outField, origin);
      HashRowResult(lib, config, schema, Resized(row, |schema|))
        == Success(row + [Integer(Murmurhash3(lib, config.seedValue, row[FirstIndexOf(fields, config.inField)].s))])
  {
    var schema := OutputSchema(fields, config.outField, origin);
    var idx := FirstIndexOf(fields, config.inField);
    OutputSchemaLookup(fields, config.outField, origin, config.inField);
    assert config.inField != config.outField;
    var padded := Resized(row, |schema|);
    assert padded == row + [Null];
    var h := Integer(Murmurhash3(lib, config.seedValue, row[idx].s));
    assert padded[idx] == row[idx];
    assert padded[|fields| := h] == row + [h];
  }

  /** What `processRow` hands to `putRow`, or how it ends. */
  datatype StepResult = NoMoreInput | Emitted(row: array<RowValue>) | Failed(error: StepError)

  /** One copy of the running step, with the state that outlives a row. */
  class HashStep {
    const meta: HashMeta
    const lib: HashLibrary
    const stepname: string
    /** Set until the first row has been seen. */
    var first: bool
    /** The output schema (`data.outputRowMeta`), computed on the first row. */
    var outputRowMeta: RowMeta?

    ghost predicate Valid()
      reads this
    {
      !first ==> outputRowMeta != null
    }

    constructor (meta: HashMeta, lib: HashLibrary, stepname: string)
      ensures Valid() && first && outputRowMeta == null
      ensures this.meta == meta && this.lib == lib && this.stepname == stepname
    {
      this.meta := meta;
      this.lib := lib;
      this.stepname := stepname;
      first := true;
      outputRowMeta := null;
    }

    /** `hashRow`: writes the hash into the output cell of `r` in place. */
    method HashRow(r: array<RowValue>) returns (outcome: Outcome<StepError>)
      requires outputRowMeta != null && outputRowMeta.Size() <= r.Length
      modifies r
      ensures match HashRowResult(lib, meta.Config(), outputRowMeta.fields, old(r[..]))
        case Success(row) => outcome == Pass && r[..] == row
        case Failure(e) => outcome == Fail(e) && r[..] == old(r[..])
    {
      var idx := outputRowMeta.IndexOfValue(meta.GetInField());
      var oidx := outputRowMeta.IndexOfValue(meta.GetOutField());
      if idx >= 0 && oidx >= 0 {
        match r[idx]
        case Text(text) =>
          var hashCode := Murmurhash3(lib, meta.GetSeedValue(), text);
          r[oidx] := Integer(hashCode);
          outcome := Pass;
        case Null =>
          outcome := Fail(NullPointerException);
        case _ =>
          outcome := Fail(ClassCastException);
      } else {
        outcome := Pass;
      }
    }

    /** `setupProcessor`: the output schema is a copy of the input schema extended by
      * `getFields`; afterwards the step is no longer on its first row. */
    method SetupProcessor(inputRowMeta: RowMeta)
      modifies this
      ensures Valid() && !first
      ensures fresh(outputRowMeta)
      ensures outputRowMeta.fields == OutputSchema(inputRowMeta.fields, meta.outField, stepname)
    {
      var inMeta := inputRowMeta.Clone();
      outputRowMeta := inMeta;
      meta.GetFields(outputRowMeta, stepname);
      first := false;
    }

    /**
     * `processRow` for the row `r` the host delivers (null once the input is exhausted)
     * under the host's input schema: set up on the first row, pad the row to the
     * output schema, hash it and hand it on.
     */
    method ProcessRow(inputRowMeta: RowMeta, r: array?<RowValue>) returns (result: StepResult)
      requires Valid()
      modifies this, r
      ensures Valid()
      ensures r == null ==> result == NoMoreInput && first == old(first) && outputRowMeta == old(outputRowMeta)
      ensures r != null ==> !first
      ensures r != null && old(first) ==>
        fresh(outputRowMeta) && outputRowMeta.fields == OutputSchema(inputRowMeta.fields, meta.outField, stepname)
      ensures r != null && !old(first) ==>
        outputRowMeta == old(outputRowMeta) && outputRowMeta.fields == old(outputRowMeta.fields)
      ensures r != null ==>
        match HashRowResult(lib, meta.Config(), outputRowMeta.fields, Resized(old(r[..]), outputRowMeta.Size()))
        case Success(row) => result.Emitted? && result.row[..] == row
        case Failure(e) => result == Failed(e)
      ensures r != null && result.Emitted? && outputRowMeta.Size() <= r.Length ==> result.row == r
      ensures r != null && (result.Failed? || outputRowMeta.Size() > r.Length) ==> r[..] == old(r[..])
    {
      if r == null {
        return NoMoreInput;
      }
      if first {
        SetupProcessor(inputRowMeta);
      }
      var row := r;
      if outputRowMeta.Size() > row.Length {
        row := ResizeArray(row, outputRowMeta.Size());
      }
      var outcome := HashRow(row);
      match outcome
      case Pass => result := Emitted(row);
      case Fail(e) => result := Failed(e);
    }
  }

  /**
   * Two rows and the end of input through a fresh step configured with input field
   * `msg`, output field `hashed` and seed 0, over an input schema holding `msg` alone:
   * each row comes out with its hash under the legacy seed appended.
   */
  method HelloScenario(lib: HashLibrary) returns (first: seq<RowValue>, second: seq<RowValue>, more: bool)
    ensures first == [Text("hello"), Integer(lib.murmur3AsLong(LegacySeed, lib.getBytes("hello")))]
    ensures second == [Text("world"), Integer(lib.murmur3AsLong(LegacySeed, lib.getBytes("world")))]
    ensures !more
  {
    var meta := new HashMeta();
    meta.SetInField("msg");
    meta.SetOutField("hashed");
    var step := new HashStep(meta, lib, "Hash Records");
    var inputRowMeta := new RowMeta([ValueMeta("msg", StringKind, "Input")]);
    var fields := inputRowMeta.fields;

    var r1 := new RowValue[1](_ => Text("hello"));
    HashAppendsOutputCell(lib, meta.Config(), fields, "Hash Records", r1[..]);
    var res1 := step.ProcessRow(inputRowMeta, r1);
    var r2 := new RowValue[1](_ => Text("world"));
    HashAppendsOutputCell(lib, meta.Config(), fields, "Hash Records", r2[..]);
    var res2 := step.ProcessRow(inputRowMeta, r2);
    var res3 := step.ProcessRow(inputRowMeta, null);

    first, second := res1.row[..], res2.row[..];
    more := !res3.NoMoreInput?;
  }
}
