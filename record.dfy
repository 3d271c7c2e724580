/** The record checks of client/src/record.ts. */
module Record {
  import opened Json

  /** isRecord: not null and of type "object", which arrays are too. */
  predicate IsRecord(v: Value)
  {
    v.Array? || v.Object?
  }

  /**
   * `Object.entries(v)` as a map from property name to value: an object's own
   * fields, or an array's elements under their decimal indices.
   */
  function Entries(v: Value): (r: map<string, Value>)
    requires IsRecord(v)
    ensures v.Object? ==> r == v.fields
    ensures v.Array? ==> forall i :: 0 <= i < |v.items| ==> NatText(i) in r && r[NatText(i)] == v.items[i]
    ensures v.Array? ==> forall k :: k in r ==> exists i :: 0 <= i < |v.items| && k == NatText(i)
  {
    match v
    case Object(fields) => fields
    case Array(items) => IndexEntries(items)
  }

  /** An array's entries: each element under the decimal text of its index. */
  function IndexEntries(items: seq<Value>): (r: map<string, Value>)
    ensures forall i :: 0 <= i < |items| ==> NatText(i) in r && r[NatText(i)] == items[i]
    ensures forall k :: k in r ==> exists i :: 0 <= i < |items| && k == NatText(i)
  {
    NatTextIsInjective();
    map i | 0 <= i < |items| :: NatText(i) := items[i]
  }

  /** isStringRecord: a record whose every entry holds a string. */
  predicate IsStringRecord(v: Value)
  {
    IsRecord(v) && forall k :: k in Entries(v) ==> Entries(v)[k].Str?
  }

  /** isRecord holds exactly of objects and arrays: never of null, undefined or a primitive. */
  lemma RecordsAreObjects(v: Value)
    ensures IsRecord(v) <==> !(v.Null? || v.Undefined? || v.Bool? || v.Number? || v.Str?)
    ensures !IsRecord(Null)
  {
  }

  /** A record of strings is a record: an object whose fields all hold strings,
      or an array whose elements are all strings. The empty object qualifies. */
  lemma StringRecordShapes(v: Value)
    ensures IsStringRecord(v) ==> IsRecord(v)
    ensures IsStringRecord(v) <==>
      || (v.Object? && forall k :: k in v.fields ==> v.fields[k].Str?)
      || (v.Array? && forall i :: 0 <= i < |v.items| ==> v.items[i].Str?)
    ensures IsStringRecord(Object(map[]))
  {
    if v.Array? {
      var e := Entries(v);
      if forall i :: 0 <= i < |v.items| ==> v.items[i].Str? {
        forall k | k in e ensures e[k].Str? {
          var i :| 0 <= i < |v.items| && k == NatText(i);
        }
      }
      if IsStringRecord(v) {
        forall i | 0 <= i < |v.items| ensures v.items[i].Str? {
          assert e[NatText(i)] == v.items[i];
        }
      }
    } else if v.Object? {
      assert Entries(v) == v.fields;
    }
  }

  /** One entry that is not a string spoils the record, wherever it sits. */
  lemma NonStringEntryRejects(fields: map<string, Value>, key: string, x: Value, items: seq<Value>, at: nat)
    requires !x.Str? && at <= |items|
    ensures !IsStringRecord(Object(fields[key := x]))
    ensures !IsStringRecord(Array(items[..at] + [x] + items[at..]))
  {
    var o := Object(fields[key := x]);
    assert Entries(o)[key] == x;
    var a := Array(items[..at] + [x] + items[at..]);
    assert a.items[at] == x;
    assert Entries(a)[NatText(at)] == x;
  }
}
