/**
 * The parts of the host ETL engine's API that the step calls: row schemas and their
 * field lookup, row values, the XML helpers used for step settings, the array resize
 * used on rows, and check remarks. Only the behaviour the step depends on is modelled.
 */
module Kettle {
  import opened Wrappers
  import opened JavaLang

  /** The data kind of a schema field. `ValueMetaInteger` is the only one the step creates. */
  datatype ValueKind = StringKind | IntegerKind | OtherKind

  /** One field descriptor of a row schema: its name, its kind and the step it came from. */
  datatype ValueMeta = ValueMeta(name: string, kind: ValueKind, origin: string)

  /** One cell of a row (`Object[]`): Java null, a `String`, a `Long`, or any other object. */
  datatype RowValue = Null | Text(s: string) | Integer(n: Int64) | Other(id: nat)

  /**
   * `RowMetaInterface.indexOfValue`: the position of the first field called `name`,
   * or -1 when there is none.
   */
  function FirstIndexOf(fields: seq<ValueMeta>, name: string): (i: int)
    ensures -1 <= i < |fields|
    ensures i >= 0 ==> fields[i].name == name
    ensures forall j :: 0 <= j < |fields| && (i < 0 || j < i) ==> fields[j].name != name
  {
    if fields == [] then -1
    else if fields[0].name == name then 0
    else
      var k := FirstIndexOf(fields[1..], name);
      if k < 0 then -1 else k + 1
  }

  /** Appending a field leaves every lookup that already succeeded where it was and
    * makes the appended name resolve: to its earlier position if it had one, else to the end. */
  lemma {:induction false} FirstIndexOfAppend(fields: seq<ValueMeta>, v: ValueMeta, name: string)
    ensures FirstIndexOf(fields + [v], name) ==
      if FirstIndexOf(fields, name) >= 0 then FirstIndexOf(fields, name)
      else if v.name == name then |fields|
      else -1
  {
    if fields != [] && fields[0].name != name {
      assert (fields + [v])[1..] == fields[1..] + [v];
      FirstIndexOfAppend(fields[1..], v, name);
    }
  }

  /** A row schema (`RowMetaInterface`), updated in place by `addValueMeta`. */
  class RowMeta {
    var fields: seq<ValueMeta>

    constructor (fields: seq<ValueMeta>)
      ensures this.fields == fields
    {
      this.fields := fields;
    }

    function Size(): nat
      reads this
    {
      |fields|
    }

    function IndexOfValue(name: string): int
      reads this
    {
      FirstIndexOf(fields, name)
    }

    /** Appends one field descriptor at the end of the schema. */
    method AddValueMeta(v: ValueMeta)
      modifies this
      ensures fields == old(fields) + [v]
    {
      fields := fields + [v];
    }

    /** A new schema object holding the same field descriptors. */
    method Clone() returns (c: RowMeta)
      ensures fresh(c) && c.fields == fields
    {
      c := new RowMeta(fields);
    }
  }

  /** The row `RowDataUtil.resizeArray(r, width)` gives: the same cells, then nulls up to `width`. */
  function Resized(row: seq<RowValue>, width: nat): (r: seq<RowValue>)
    ensures |r| == if width > |row| then width else |row|
    ensures r[..|row|] == row
    ensures forall i :: |row| <= i < |r| ==> r[i] == Null
  {
    if width > |row| then row + seq(width - |row|, _ => Null) else row
  }

  /** `RowDataUtil.resizeArray`: the same array when it is wide enough, otherwise
    * a new array with the old cells copied to its front and nulls after them. */
  method ResizeArray(r: array<RowValue>, width: nat) returns (resized: array<RowValue>)
    ensures resized[..] == Resized(r[..], width)
    ensures width <= r.Length ==> resized == r
    ensures width > r.Length ==> fresh(resized)
  {
    if width <= r.Length {
      return r;
    }
    resized := new RowValue[width](_ => Null);
    var i := 0;
    while i < r.Length
      invariant 0 <= i <= r.Length
      invariant forall k :: 0 <= k < i ==> resized[k] == r[k]
      invariant forall k :: r.Length <= k < width ==> resized[k] == Null
    {
      resized[i] := r[i];
      i := i + 1;
    }
    assert resized[..] == r[..] + seq(width - r.Length, _ => Null);
  }

  /** A child element of a step's XML node: its tag and the text it holds (`None` when
    * it has no text child, as for an empty element). */
  datatype XmlElement = XmlElement(tag: string, text: Option<string>)

  /** `XMLHandler.getNodeValue(XMLHandler.getSubNode(node, tag))`: the text of the first
    * child called `tag`, or null when there is no such child or it holds no text. */
  function TagValue(children: seq<XmlElement>, tag: string): (v: Option<string>)
    ensures (forall i :: 0 <= i < |children| ==> children[i].tag != tag) ==> v == None
    ensures v.Some? ==> exists i :: 0 <= i < |children| && children[i].tag == tag && children[i].text == v
  {
    if children == [] then None
    else if children[0].tag == tag then children[0].text
    else TagValue(children[1..], tag)
  }

  /** Children placed after a `tag` child do not change what is read for `tag`. */
  lemma {:induction false} TagValueFirst(before: seq<XmlElement>, e: XmlElement, after: seq<XmlElement>)
    requires forall i :: 0 <= i < |before| ==> before[i].tag != e.tag
    ensures TagValue(before + [e] + after, e.tag) == e.text
  {
    if before != [] {
      assert (before + [e] + after)[1..] == before[1..] + [e] + after;
      TagValueFirst(before[1..], e, after);
    }
  }

  /** Children without the tag that come first do not change what is read for it. */
  lemma {:induction false} TagValueSkip(before: seq<XmlElement>, rest: seq<XmlElement>, tag: string)
    requires forall i :: 0 <= i < |before| ==> before[i].tag != tag
    ensures TagValue(before + rest, tag) == TagValue(rest, tag)
  {
    if before == [] {
      assert before + rest == rest;
    } else {
      assert (before + rest)[0] == before[0];
      assert (before + rest)[1..] == before[1..] + rest;
      TagValueSkip(before[1..], rest, tag);
    }
  }

  /** `XMLHandler.addTagValue(tag, value)`: an element holding `value`, empty when `value` is. */
  function AddTagValue(tag: string, value: string): (e: XmlElement)
    ensures e.tag == tag
    ensures e.text == None <==> value == ""
  {
    XmlElement(tag, if value == "" then None else Some(value))
  }

  /** `Const.NVL(value, ifNull)`: the value unless it is null, else the fallback. */
  function Nvl(value: Option<string>, ifNull: string): (r: string)
    ensures value == None ==> r == ifNull
    ensures Some(r) == value || r == ifNull
  {
    match value
    case Some(s) => s
    case None => ifNull
  }

  /** What `Nvl(TagValue(..))` reads back from an element `AddTagValue` wrote. */
  lemma {:induction false} ReadBackTagValue(before: seq<XmlElement>, tag: string, value: string, after: seq<XmlElement>, ifNull: string)
    requires forall i :: 0 <= i < |before| ==> before[i].tag != tag
    ensures Nvl(TagValue(before + [AddTagValue(tag, value)] + after, tag), ifNull) == if value == "" then ifNull else value
  {
    TagValueFirst(before, AddTagValue(tag, value), after);
  }

  /** The kind of a check remark (`CheckResultInterface.TYPE_RESULT_*`). */
  datatype CheckResultType = ResultOk | ResultWarning | ResultError

  /** A check remark: its kind and the key of its localised message. */
  datatype CheckResult = CheckResult(kind: CheckResultType, messageKey: string)

  /** The list of remarks a step's check appends to (`List<CheckResultInterface>`). */
  class RemarkList {
    var items: seq<CheckResult>

    constructor ()
      ensures items == []
    {
      items := [];
    }

    method Add(cr: CheckResult)
      modifies this
      ensures items == old(items) + [cr]
    {
      items := items + [cr];
    }
  }
}
