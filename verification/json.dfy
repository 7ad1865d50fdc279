/**
 The values that `response.json()` produces, and the two ways the viewer
 looks into them: `for (k in v)` enumeration and `record.file_path`.
 */
module Json {
  import opened Wrappers
  import opened Strings

  /**
   A parsed JSON value. Numbers are never inspected by the viewer, so they
   are kept as their literal text. An object's properties are listed in the
   order JavaScript enumerates them.
   */
  datatype Value =
    | Null
    | Bool(b: bool)
    | Number(literal: string)
    | Str(s: string)
    | Array(elems: seq<Value>)
    | Object(props: seq<Property>)

  datatype Property = Property(key: string, value: Value)

  /** A parsed object never holds the same key twice. */
  predicate DistinctKeys(props: seq<Property>) {
    forall i, j :: 0 <= i < j < |props| ==> props[i].key != props[j].key
  }

  /** The keys of a property list, in order. */
  function Keys(props: seq<Property>): (ks: seq<string>)
    ensures |ks| == |props|
    ensures forall i :: 0 <= i < |props| ==> ks[i] == props[i].key
  {
    seq(|props|, i requires 0 <= i < |props| => props[i].key)
  }

  /**
   The `(key, value)` pairs a `for (k in v)` loop visits, reading `v[k]`
   for each: an object's own properties; an array's indices `"0"`, `"1"`, …
   with their elements; a string's indices with one-character strings; and
   nothing for `null`, booleans and numbers.
   */
  function Enumerate(v: Value): (ps: seq<Property>)
    ensures v.Object? ==> ps == v.props
    ensures v.Array? ==> |ps| == |v.elems|
    ensures v.Str? ==> |ps| == |v.s|
    ensures !v.Object? && !v.Array? && !v.Str? ==> ps == []
    ensures forall i :: 0 <= i < |ps| && !v.Object? ==> ps[i].key == NatToDecimal(i)
    ensures forall i :: 0 <= i < |ps| && v.Array? ==> ps[i].value == v.elems[i]
    ensures forall i :: 0 <= i < |ps| && v.Str? ==> ps[i].value == Str([v.s[i]])
  {
    match v
    case Object(props) => props
    case Array(elems) =>
      seq(|elems|, i requires 0 <= i < |elems| => Property(NatToDecimal(i), elems[i]))
    case Str(s) =>
      seq(|s|, i requires 0 <= i < |s| => Property(NatToDecimal(i), Str([s[i]])))
    case _ => []
  }

  /** Each key is visited once: the enumeration of a well-formed value has distinct keys. */
  lemma EnumeratedKeysDistinct(v: Value)
    requires v.Object? ==> DistinctKeys(v.props)
    ensures DistinctKeys(Enumerate(v))
  {
    var ps := Enumerate(v);
    if v.Array? || v.Str? {
      forall i, j | 0 <= i < j < |ps|
        ensures ps[i].key != ps[j].key
      {
        assert ps[i].key == NatToDecimal(i) && ps[j].key == NatToDecimal(j);
        if NatToDecimal(i) == NatToDecimal(j) {
          NatToDecimalInjective(i, j);
        }
      }
    }
  }

  /** `props[key]` on an object: the first property with that key, if any. */
  function Lookup(props: seq<Property>, key: string): (r: Option<Value>)
    ensures r.None? <==> key !in Keys(props)
    ensures r.Some? ==> exists i :: 0 <= i < |props| && props[i] == Property(key, r.value)
  {
    if |props| == 0 then None
    else if props[0].key == key then Some(props[0].value)
    else
      var r := Lookup(props[1..], key);
      assert Keys(props) == [props[0].key] + Keys(props[1..]);
      r
  }

  /**
   `record.file_path` when it is a string. Every other outcome (a missing
   key, a non-string value, a record that is not an object) ends in a
   TypeError once `.split` is applied to it.
   */
  function FilePath(record: Value): (p: Option<string>)
    ensures p.Some? ==> record.Object? && Lookup(record.props, "file_path") == Some(Str(p.value))
    ensures p.None? ==> !record.Object? || !Lookup(record.props, "file_path").Some?
                        || !Lookup(record.props, "file_path").value.Str?
  {
    if !record.Object? then None
    else
      match Lookup(record.props, "file_path")
      case Some(Str(s)) => Some(s)
      case _ => None
  }

  /** The position of the first property with the key. */
  function FirstWith(props: seq<Property>, key: string): (i: nat)
    requires key in Keys(props)
    ensures i < |props| && props[i].key == key
    ensures forall j :: 0 <= j < i ==> props[j].key != key
  {
    if props[0].key == key then 0
    else
      assert key in Keys(props[1..]) by {
        var k :| 0 <= k < |props| && Keys(props)[k] == key;
        assert Keys(props[1..])[k - 1] == key;
      }
      1 + FirstWith(props[1..], key)
  }

  /** Lookup returns the value of the first property with the key. */
  lemma {:induction false} LookupFirst(props: seq<Property>, key: string)
    ensures key in Keys(props) ==> Lookup(props, key) == Some(props[FirstWith(props, key)].value)
  {
    if key in Keys(props) {
      LookupFindsFirst(props, key, FirstWith(props, key), props[FirstWith(props, key)].value);
    }
  }

  /** A property whose key appears nowhere before it is the one found. */
  lemma {:induction false} LookupFindsFirst(props: seq<Property>, key: string, i: nat, v: Value)
    requires i < |props| && props[i] == Property(key, v)
    requires forall j :: 0 <= j < i ==> props[j].key != key
    ensures Lookup(props, key) == Some(v)
  {
    if i > 0 {
      assert props[0].key != key;
      assert props[1..][i - 1] == Property(key, v);
      assert forall j :: 0 <= j < i - 1 ==> props[1..][j].key != key by {
        forall j | 0 <= j < i - 1 ensures props[1..][j].key != key {
          assert props[1..][j] == props[j + 1];
        }
      }
      LookupFindsFirst(props[1..], key, i - 1, v);
    }
  }

  /** In a parsed object, where keys are distinct, property access finds a
      value exactly when some property pairs it with the key. */
  lemma LookupDistinct(props: seq<Property>, key: string, v: Value)
    requires DistinctKeys(props)
    ensures Lookup(props, key) == Some(v) <==> Property(key, v) in props
  {
    if Property(key, v) in props {
      var i :| 0 <= i < |props| && props[i] == Property(key, v);
      LookupFindsFirst(props, key, i, v);
    }
  }
}
