/**
 `renderLabels` in script.js: the label region's layout for one record,
 given as sections and items rather than markup. Each top-level key of the
 record becomes one entry, in enumeration order:
 - an array value: a heading and one bullet per element, each bullet
   listing every `subKey: value` of that element;
 - a non-null object: a heading and one `subKey: value` item per key;
 - anything else, `null` included: a single `key: value` line.
 Values are carried as they are. Of the template interpolation that turns
 them into text, only whether it throws is modelled: `renderLabels` gives
 no view at all for a record on which it throws.
 */
module Labels {
  import opened Strings
  import opened Json
  import opened Wrappers

  /** Each `key: value` pair on screen is carried as the property it shows. */
  datatype Entry =
    | ArraySection(heading: string, bullets: seq<seq<Property>>)
    | ObjectSection(heading: string, items: seq<Property>)
    | Line(item: Property)

  /** `key.replace('_', ' ')`: only the first underscore becomes a space. */
  function DisplayKey(key: string): (d: string)
    ensures |d| == |key|
    ensures forall i :: 0 <= i < |key| ==>
              d[i] == (if key[i] == '_' && '_' !in key[..i] then ' ' else key[i])
    ensures '_' !in key ==> d == key
  {
    ReplaceFirst(key, '_', ' ')
  }

  /** A section heading: the display key, upper-cased. */
  function Heading(key: string): (h: string)
    ensures |h| == |key|
    ensures forall i :: 0 <= i < |key| ==>
              h[i] == UpperChar(if key[i] == '_' && '_' !in key[..i] then ' ' else key[i])
  {
    Upper(DisplayKey(key))
  }

  /** Only the first underscore is replaced: `a_b` shows as `a b` for any `b`,
      so `file_path` shows as `file path` and `a_b_c` as `a b_c`. */
  lemma {:induction false} DisplayKeyReplacesFirstUnderscore(a: string, b: string)
    requires '_' !in a
    ensures DisplayKey(a + "_" + b) == a + " " + b
  {
    var key := a + "_" + b;
    var d := DisplayKey(key);
    forall i | 0 <= i < |key|
      ensures d[i] == (a + " " + b)[i]
    {
      if i < |a| {
        assert key[i] == a[i];
      } else if i == |a| {
        assert key[..i] == a;
      } else {
        assert key[..i][|a|] == '_';
      }
    }
  }

  /** Headings: the display key upper-cased, so `auto_transcript` becomes
      `AUTO TRANSCRIPT` and `a_b_c` becomes `A B_C`. */
  lemma HeadingOfUnderscoredKey(a: string, b: string)
    requires '_' !in a
    ensures Heading(a + "_" + b) == Upper(a) + " " + Upper(b)
  {
    DisplayKeyReplacesFirstUnderscore(a, b);
    UpperAppend(a, " " + b);
    UpperAppend(" ", b);
    assert Upper(" ") == " ";
  }

  /** The layout one top-level property gets. */
  function RenderEntry(p: Property): (e: Entry)
    ensures LaidOutAs(p, e)
  {
    match p.value
    case Array(elems) =>
      ArraySection(Heading(p.key), seq(|elems|, j requires 0 <= j < |elems| => Enumerate(elems[j])))
    case Object(props) => ObjectSection(Heading(p.key), props)
    case _ => Line(Property(DisplayKey(p.key), p.value))
  }

  /** How `renderLabels` lays out one top-level property, as a relation: an
      array gets its upper-cased heading and one bullet per element listing
      that element's enumerated pairs; a non-null object gets its heading and
      its own pairs; anything else is one line under the display key. */
  ghost predicate LaidOutAs(p: Property, e: Entry) {
    && (e.ArraySection? <==> p.value.Array?)
    && (e.ObjectSection? <==> p.value.Object?)
    && (e.ArraySection? ==>
          e.heading == Heading(p.key) && |e.bullets| == |p.value.elems|
          && forall j :: 0 <= j < |e.bullets| ==> e.bullets[j] == Enumerate(p.value.elems[j]))
    && (e.ObjectSection? ==> e.heading == Heading(p.key) && e.items == p.value.props)
    && (e.Line? ==> e.item == Property(DisplayKey(p.key), p.value))
  }

  /** One entry per property, in order. */
  function RenderAll(props: seq<Property>): (es: seq<Entry>)
    ensures |es| == |props|
    ensures forall i :: 0 <= i < |props| ==> es[i] == RenderEntry(props[i])
  {
    if |props| == 0 then []
    else [RenderEntry(props[0])] + RenderAll(props[1..])
  }

  /** The layout `renderLabels` builds for a record when nothing throws:
      one entry per enumerated top-level key. */
  function Layout(record: Value): (es: seq<Entry>)
    ensures |es| == |Enumerate(record)|
  {
    RenderAll(Enumerate(record))
  }

  /** Each entry of the layout is laid out according to its key's value. */
  lemma LayoutLaidOut(record: Value)
    ensures forall i :: 0 <= i < |Layout(record)| ==> LaidOutAs(Enumerate(record)[i], Layout(record)[i])
  {
  }

  /** Keys are shown in enumeration order: rendering the concatenation of two
      property lists renders each in turn. */
  lemma {:induction false} RenderAllAppend(a: seq<Property>, b: seq<Property>)
    ensures RenderAll(a + b) == RenderAll(a) + RenderAll(b)
  {
    if |a| > 0 {
      assert (a + b)[1..] == a[1..] + b;
      RenderAllAppend(a[1..], b);
    } else {
      assert a + b == b;
    }
  }

  /** `null` is not treated as a nested object: it gets a single line. */
  lemma NullIsALine(key: string)
    ensures RenderEntry(Property(key, Null)) == Line(Property(DisplayKey(key), Null))
  {
  }

  /**
   `${v}` in a template: the conversion of `v` to text throws a TypeError.
   A parsed value never holds a function, so an object with its own
   `toString` key has no callable `toString`, `valueOf` gives back the
   object itself, and the conversion fails. Any other object prints as
   `[object Object]`. An array is converted by `join`, which converts each
   element in turn (`null` as the empty string). Primitives always convert.
   */
  predicate ToStringThrows(v: Value) {
    match v
    case Object(props) => "toString" in Keys(props)
    case Array(elems) => exists i :: 0 <= i < |elems| && ToStringThrows(elems[i])
    case _ => false
  }

  /** Some value of the pairs interpolated as `${…}` fails to convert. */
  predicate AnyThrows(props: seq<Property>) {
    exists k :: 0 <= k < |props| && ToStringThrows(props[k].value)
  }

  /** Building the entry of one top-level property throws: an array
      interpolates `item[subKey]` for every pair of every element, a nested
      object interpolates `value[subKey]` for each of its pairs, and a plain
      value, which is never an object here, always converts. */
  predicate EntryThrows(p: Property) {
    match p.value
    case Array(elems) => exists j :: 0 <= j < |elems| && AnyThrows(Enumerate(elems[j]))
    case Object(props) => AnyThrows(props)
    case _ => false
  }

  /** `labelsObject.hasOwnProperty(key)`: a record with its own
      `hasOwnProperty` key hides the method behind a plain value, so the
      call throws on the first key. Arrays and strings keep the method. */
  predicate ShadowsHasOwnProperty(record: Value) {
    record.Object? && "hasOwnProperty" in Keys(record.props)
  }

  /** When `renderLabels` throws, stated over the whole record. */
  predicate RenderThrows(record: Value) {
    ShadowsHasOwnProperty(record)
    || exists i :: 0 <= i < |Enumerate(record)| && EntryThrows(Enumerate(record)[i])
  }

  /** The loop over the top-level keys: each key is first checked with
      `hasOwnProperty`, then its entry is built; the first throw ends the
      loop before the label region is written. */
  function RenderFrom(shadowed: bool, props: seq<Property>): (r: Option<seq<Entry>>)
    ensures r.None? <==> |props| > 0 && (shadowed || exists i :: 0 <= i < |props| && EntryThrows(props[i]))
    ensures r.Some? ==> r.value == RenderAll(props)
  {
    if |props| == 0 then Some([])
    else if shadowed || EntryThrows(props[0]) then None
    else
      var rest := RenderFrom(shadowed, props[1..]);
      assert forall i :: 0 < i < |props| ==> props[i] == props[1..][i - 1];
      if rest.None? then None else Some([RenderEntry(props[0])] + rest.value)
  }

  /**
   `renderLabels`: the label view of a record, or `None` when it throws
   part-way, in which case the label region is not written at all.
   */
  function RenderLabels(record: Value): (r: Option<seq<Entry>>)
    ensures r.None? <==> RenderThrows(record)
    ensures r.Some? ==> r.value == Layout(record)
  {
    RenderFrom(ShadowsHasOwnProperty(record), Enumerate(record))
  }

  /** A record with its own `hasOwnProperty` key is never rendered. */
  lemma ShadowedRecordThrows(props: seq<Property>, v: Value)
    requires Property("hasOwnProperty", v) in props
    ensures RenderLabels(Object(props)) == None
  {
    var i :| 0 <= i < |props| && props[i] == Property("hasOwnProperty", v);
    assert Keys(props)[i] == "hasOwnProperty";
  }

  /** A nested object whose member has its own `toString` key throws when
      that member is interpolated, as in `{"metadata": {"x": {"toString": 1}}}`. */
  lemma NestedToStringThrows(key: string, sub: string, inner: seq<Property>)
    requires "toString" in Keys(inner)
    ensures RenderLabels(Object([Property(key, Object([Property(sub, Object(inner))]))])) == None
  {
    var nested := [Property(sub, Object(inner))];
    assert ToStringThrows(nested[0].value);
    assert EntryThrows(Property(key, Object(nested)));
    assert Enumerate(Object([Property(key, Object(nested))]))[0] == Property(key, Object(nested));
  }

  /** Records whose values are all primitives render whenever the record does
      not hide `hasOwnProperty`. */
  lemma PrimitivesRender(props: seq<Property>)
    requires forall i :: 0 <= i < |props| ==> !props[i].value.Array? && !props[i].value.Object?
    requires "hasOwnProperty" !in Keys(props)
    ensures RenderLabels(Object(props)) == Some(Layout(Object(props)))
  {
  }

  /**
   A record with a plain path field and a transcript of one segment (as in
   `{file_path: p, auto_transcript: [{start_time, end_time, text}]}`): the
   path is one line under its display key, the transcript one section whose
   heading is the upper-cased key with its first underscore spaced, holding
   one bullet of three pairs.
   */
  lemma TranscriptExample(pathKey: string, a: string, b: string,
                          path: string, start: string, end: string, text: string)
    requires '_' !in a && pathKey != "hasOwnProperty"
    ensures
      var segment := Object([Property("start_time", Str(start)), Property("end_time", Str(end)),
                             Property("text", Str(text))]);
      var record := Object([Property(pathKey, Str(path)), Property(a + "_" + b, Array([segment]))]);
      RenderLabels(record) ==
        Some([ Line(Property(DisplayKey(pathKey), Str(path))),
               ArraySection(Upper(a) + " " + Upper(b), [segment.props]) ])
  {
    var segment := Object([Property("start_time", Str(start)), Property("end_time", Str(end)),
                           Property("text", Str(text))]);
    var p0, p1 := Property(pathKey, Str(path)), Property(a + "_" + b, Array([segment]));
    TranscriptSection(a, b, segment);
    TranscriptRenders(p0, p1, segment);
    RenderTwoProperties(p0, p1);
  }

  /** The transcript property of the example on its own: one section, one bullet. */
  lemma TranscriptSection(a: string, b: string, segment: Value)
    requires '_' !in a && segment.Object?
    ensures RenderEntry(Property(a + "_" + b, Array([segment]))) ==
              ArraySection(Upper(a) + " " + Upper(b), [segment.props])
  {
    var e := RenderEntry(Property(a + "_" + b, Array([segment])));
    assert e.heading == Upper(a) + " " + Upper(b) by {
      HeadingOfUnderscoredKey(a, b);
    }
    assert e.bullets == [segment.props];
  }

  /** Nothing in the example throws: the keys are not `hasOwnProperty` and
      every interpolated value is a string. */
  lemma TranscriptRenders(p0: Property, p1: Property, segment: Value)
    requires p0.key != "hasOwnProperty" && p0.value.Str?
    requires segment.Object? && forall k :: 0 <= k < |segment.props| ==> segment.props[k].value.Str?
    requires p1.value == Array([segment]) && '_' in p1.key
    ensures !RenderThrows(Object([p0, p1]))
  {
    assert p1.key != "hasOwnProperty" by {
      assert '_' !in "hasOwnProperty";
    }
    var ps := [p0, p1];
    assert Keys(ps) == [p0.key, p1.key];
    assert !AnyThrows(Enumerate(segment));
    assert !EntryThrows(p1);
  }

  lemma RenderTwoProperties(p0: Property, p1: Property)
    ensures Layout(Object([p0, p1])) == [RenderEntry(p0), RenderEntry(p1)]
  {
    var ps := [p0, p1];
    assert Enumerate(Object(ps)) == ps;
    assert RenderAll(ps) == [RenderEntry(p0)] + RenderAll(ps[1..]);
    assert ps[1..] == [p1];
    assert RenderAll([p1]) == [RenderEntry(p1)] + RenderAll([]);
  }
}
