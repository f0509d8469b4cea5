/**
 * The settings of the "Hash Records" step (`HashPDIPluginMeta`): the input field name,
 * the output field name and the seed, their defaults, their XML form, the output
 * schema they imply, and the design-time check.
 */
module HashPluginMeta {
  import opened Wrappers
  import opened JavaLang
  import opened Kettle

  /** The three settings, as a value. */
  datatype StepConfig = StepConfig(inField: string, outField: string, seedValue: Int64)

  /** The settings of a new step and of `setDefault`. */
  const DefaultConfig := StepConfig("", "", 0)

  /** The seed assumed when the settings hold no `seedValue` element. */
  const MissingSeed: Int64 := -1

  /** The failure of `readData`: `KettleXMLException` wrapping the `NumberFormatException`. */
  datatype XmlReadError = UnparsableSeed(text: string)

  /** What `readData` leaves in the three fields, and whether it threw. */
  datatype ReadResult = ReadResult(config: StepConfig, outcome: Outcome<XmlReadError>)

  /** The elements `getXML` writes for a configuration, in order. */
  function ConfigXml(c: StepConfig): seq<XmlElement> {
    [ AddTagValue("inField", c.inField),
      AddTagValue("outField", c.outField),
      AddTagValue("seedValue", LongToString(c.seedValue)) ]
  }

  /**
   * The effect of `readData` on a step node whose child elements are `stepnode`,
   * starting from the settings `prior`. The two names are set first; when the seed
   * text does not parse, the exception leaves the seed as it was.
   */
  function ReadStepNode(stepnode: seq<XmlElement>, prior: StepConfig): (r: ReadResult)
    ensures r.config.inField == Nvl(TagValue(stepnode, "inField"), "")
    ensures r.config.outField == Nvl(TagValue(stepnode, "outField"), "")
    ensures r.outcome.Pass? <==> ParseLong(Nvl(TagValue(stepnode, "seedValue"), "-1")).Some?
    ensures r.outcome.Pass? ==> Some(r.config.seedValue) == ParseLong(Nvl(TagValue(stepnode, "seedValue"), "-1"))
    ensures r.outcome.Fail? ==> r.config.seedValue == prior.seedValue
  {
    var inField := Nvl(TagValue(stepnode, "inField"), "");
    var outField := Nvl(TagValue(stepnode, "outField"), "");
    var seedText := Nvl(TagValue(stepnode, "seedValue"), "-1");
    match ParseLong(seedText)
    case Some(v) => ReadResult(StepConfig(inField, outField, v), Pass)
    case None => ReadResult(StepConfig(inField, outField, prior.seedValue), Fail(UnparsableSeed(seedText)))
  }

  /** Predicate: none of the children is one of the three settings elements. */
  predicate NoSettingTags(children: seq<XmlElement>) {
    forall i :: 0 <= i < |children| ==>
      children[i].tag != "inField" && children[i].tag != "outField" && children[i].tag != "seedValue"
  }

  /** Missing elements read as the empty names and seed -1, and reading succeeds. */
  lemma MissingTagsRead(stepnode: seq<XmlElement>, prior: StepConfig)
    requires NoSettingTags(stepnode)
    ensures ReadStepNode(stepnode, prior) == ReadResult(StepConfig("", "", MissingSeed), Pass)
  {
  }

  /** The three settings elements, holding the texts given, read back as those texts
    * when the elements before them carry none of the three tags. */
  lemma {:induction false} SettingsReadBack(
    inField: string, outField: string, seedText: string, before: seq<XmlElement>, after: seq<XmlElement>)
    requires NoSettingTags(before)
    ensures var node := before + [AddTagValue("inField", inField), AddTagValue("outField", outField), AddTagValue("seedValue", seedText)] + after;
      && Nvl(TagValue(node, "inField"), "") == inField
      && Nvl(TagValue(node, "outField"), "") == outField
      && TagValue(node, "seedValue") == AddTagValue("seedValue", seedText).text
  {
    var e0, e1, e2 := AddTagValue("inField", inField), AddTagValue("outField", outField), AddTagValue("seedValue", seedText);
    var rest := [e0, e1, e2] + after;
    assert before + [e0, e1, e2] + after == before + rest;
    TagValueSkip(before, rest, "inField");
    TagValueSkip(before, rest, "outField");
    TagValueSkip(before, rest, "seedValue");
    assert rest[0] == e0 && rest[1..][0] == e1 && rest[1..][1..][0] == e2;
    assert TagValue(rest, "seedValue") == TagValue(rest[1..], "seedValue") == TagValue(rest[1..][1..], "seedValue") == e2.text;
  }

  /**
   * Writing the settings and reading them back restores all three, whatever the
   * prior settings and whatever other elements the host puts around them.
   */
  lemma {:induction false} XmlRoundTrip(c: StepConfig, prior: StepConfig, before: seq<XmlElement>, after: seq<XmlElement>)
    requires NoSettingTags(before)
    ensures ReadStepNode(before + ConfigXml(c) + after, prior) == ReadResult(c, Pass)
  {
    var seedText := LongToString(c.seedValue);
    SettingsReadBack(c.inField, c.outField, seedText, before, after);
    assert before + ConfigXml(c) + after
      == before + [AddTagValue("inField", c.inField), AddTagValue("outField", c.outField), AddTagValue("seedValue", seedText)] + after;
    assert Nvl(TagValue(before + ConfigXml(c) + after, "seedValue"), "-1") == seedText;
    ParseLongRoundTrip(c.seedValue);
  }

  /** The schema `getFields` produces: the incoming fields, then one integer field called `outField`. */
  function OutputSchema(fields: seq<ValueMeta>, outField: string, origin: string): (r: seq<ValueMeta>)
    ensures |r| == |fields| + 1
    ensures r[..|fields|] == fields
    ensures r[|fields|].name == outField && r[|fields|].kind == IntegerKind && r[|fields|].origin == origin
  {
    fields + [ValueMeta(outField, IntegerKind, origin)]
  }

  /** In the output schema the output field always resolves: to an incoming field of the
    * same name if there is one, else to the appended field; other lookups are unchanged. */
  lemma OutputSchemaLookup(fields: seq<ValueMeta>, outField: string, origin: string, name: string)
    ensures FirstIndexOf(OutputSchema(fields, outField, origin), outField) ==
      if FirstIndexOf(fields, outField) >= 0 then FirstIndexOf(fields, outField) else |fields|
    ensures name != outField ==>
      FirstIndexOf(OutputSchema(fields, outField, origin), name) == FirstIndexOf(fields, name)
  {
  }

  /**
   * The remarks `check` adds: first whether the step receives fields (a warning when the
   * previous step's schema is null or empty), then whether it has input hops (an error
   * when there are none). `prevSize` is the size of that schema, `None` when it is null.
   */
  function CheckRemarks(prevSize: Option<nat>, inputCount: nat): (rs: seq<CheckResult>)
    ensures |rs| == 2
    ensures rs[0].kind in {ResultOk, ResultWarning} && rs[1].kind in {ResultOk, ResultError}
    ensures rs[0].kind == ResultWarning <==> prevSize == None || prevSize == Some(0)
    ensures rs[1].kind == ResultError <==> inputCount == 0
  {
    var first :=
      if prevSize == None || prevSize == Some(0)
      then CheckResult(ResultWarning, "HashPDIPluginMeta.CheckResult.NotReceivingFields")
      else CheckResult(ResultOk, "HashPDIPluginMeta.CheckResult.StepRecevingData");
    var second :=
      if inputCount > 0
      then CheckResult(ResultOk, "HashPDIPluginMeta.CheckResult.StepRecevingData2")
      else CheckResult(ResultError, "HashPDIPluginMeta.CheckResult.NoInputReceivedFromOtherSteps");
    [first, second]
  }

  /** The step's settings object. */
  class HashMeta {
    var inField: string
    var outField: string
    var seedValue: Int64

    /** The settings held, as a value. */
    function Config(): StepConfig
      reads this
    {
      StepConfig(inField, outField, seedValue)
    }

    constructor ()
      ensures Config() == DefaultConfig
    {
      inField := "";
      outField := "";
      seedValue := 0;
    }

    function GetInField(): string
      reads this
    {
      inField
    }

    method SetInField(inField: string)
      modifies this
      ensures GetInField() == inField
      ensures Config() == old(Config()).(inField := inField)
    {
      this.inField := inField;
    }

    function GetOutField(): string
      reads this
    {
      outField
    }

    method SetOutField(outField: string)
      modifies this
      ensures GetOutField() == outField
      ensures Config() == old(Config()).(outField := outField)
    {
      this.outField := outField;
    }

    function GetSeedValue(): Int64
      reads this
    {
      seedValue
    }

    method SetSeedValue(seedValue: Int64)
      modifies this
      ensures GetSeedValue() == seedValue
      ensures Config() == old(Config()).(seedValue := seedValue)
    {
      this.seedValue := seedValue;
    }

    /** `getXML`: the three settings elements, appended one after the other. */
    method GetXml() returns (xml: seq<XmlElement>)
      ensures xml == ConfigXml(Config())
      ensures forall prior :: ReadStepNode(xml, prior) == ReadResult(Config(), Pass)
    {
      xml := [];
      xml := xml + [AddTagValue("inField", inField)];
      xml := xml + [AddTagValue("outField", outField)];
      xml := xml + [AddTagValue("seedValue", LongToString(seedValue))];
      assert [] + ConfigXml(Config()) + [] == xml;
      forall prior: StepConfig ensures ReadStepNode(xml, prior) == ReadResult(Config(), Pass) {
        XmlRoundTrip(Config(), prior, [], []);
      }
    }

    /** `readData` (and `loadXML`, which only calls it). */
    method ReadData(stepnode: seq<XmlElement>) returns (outcome: Outcome<XmlReadError>)
      modifies this
      ensures ReadResult(Config(), outcome) == ReadStepNode(stepnode, old(Config()))
    {
      SetInField(Nvl(TagValue(stepnode, "inField"), ""));
      SetOutField(Nvl(TagValue(stepnode, "outField"), ""));
      var seedText := Nvl(TagValue(stepnode, "seedValue"), "-1");
      match ParseLong(seedText)
      case Some(v) =>
        SetSeedValue(v);
        outcome := Pass;
      case None =>
        outcome := Fail(UnparsableSeed(seedText));
    }

    method SetDefault()
      modifies this
      ensures Config() == DefaultConfig
    {
      inField := "";
      outField := "";
      seedValue := 0;
    }

    /** `getFields`: appends the output field to the schema it is given. */
    method GetFields(rowMeta: RowMeta, origin: string)
      modifies rowMeta
      ensures rowMeta.fields == OutputSchema(old(rowMeta.fields), outField, origin)
    {
      var v0 := ValueMeta(outField, IntegerKind, origin);
      rowMeta.AddValueMeta(v0);
    }

    /** `check`: appends two remarks about the previous step's schema and the input hops. */
    method Check(remarks: RemarkList, prev: RowMeta?, input: seq<string>)
      modifies remarks
      ensures remarks.items == old(remarks.items) + CheckRemarks(if prev == null then None else Some(|prev.fields|), |input|)
    {
      var cr: CheckResult;
      if prev == null || prev.Size() == 0 {
        cr := CheckResult(ResultWarning, "HashPDIPluginMeta.CheckResult.NotReceivingFields");
        remarks.Add(cr);
      } else {
        cr := CheckResult(ResultOk, "HashPDIPluginMeta.CheckResult.StepRecevingData");
        remarks.Add(cr);
      }
      if |input| > 0 {
        cr := CheckResult(ResultOk, "HashPDIPluginMeta.CheckResult.StepRecevingData2");
        remarks.Add(cr);
      } else {
        cr := CheckResult(ResultError, "HashPDIPluginMeta.CheckResult.NoInputReceivedFromOtherSteps");
        remarks.Add(cr);
      }
    }
  }
}
