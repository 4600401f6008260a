/**
 * The counting step as it behaves on a plain JavaScript object literal. Reading a key that is
 * not an own property falls back to the members every object inherits: methods, and for
 * `__proto__` the prototype object, all truthy. Incrementing one stores NaN, and assigning a
 * number to `__proto__` is ignored.
 * On every other key the step is `Counting.Bump`.
 */
module ObjectDictionary {
  import opened Wrappers
  import opened Calendar
  import opened Records
  import opened Counting
  import opened MonthCount

  /**
   * The values a property read can produce in the counting loops; `InheritedMember` is any
   * inherited method or the prototype object read through `__proto__`.
   */
  datatype Value = Undefined | Number(n: nat) | NotANumber | InheritedMember

  datatype Property = Property(key: string, value: Value)

  /** The members an object literal inherits. */
  const InheritedNames: set<string> := {
    "constructor", "hasOwnProperty", "isPrototypeOf", "propertyIsEnumerable", "toLocaleString",
    "toString", "valueOf", "__defineGetter__", "__defineSetter__", "__lookupGetter__",
    "__lookupSetter__", "__proto__"
  }

  /** Position of the own property `k` among the property names, or `|o|` when there is none. */
  function OwnIndex(o: seq<Property>, k: string): nat {
    Position(seq(|o|, i requires 0 <= i < |o| => o[i].key), k)
  }

  /** `o[k]`: the own property, else the inherited member, else `undefined`. */
  function Read(o: seq<Property>, k: string): Value {
    var i := OwnIndex(o, k);
    if i < |o| then o[i].value
    else if k in InheritedNames then InheritedMember
    else Undefined
  }

  predicate Truthy(v: Value) {
    (v.Number? && v.n != 0) || v.InheritedMember?
  }

  /** `++` on a value: numbers go up by one, anything else becomes NaN. */
  function Increment(v: Value): Value {
    if v.Number? then Number(v.n + 1) else NotANumber
  }

  /** `o[k] = v`: `__proto__` ignores a non-object; any other key is updated or appended. */
  function Assign(o: seq<Property>, k: string, v: Value): seq<Property> {
    var i := OwnIndex(o, k);
    if k == "__proto__" then o
    else if i < |o| then o[i := Property(k, v)]
    else o + [Property(k, v)]
  }

  /** One step of either counting loop as written: `if (o[k]) o[k]++; else o[k] = 1;`. */
  function StepAsWritten(o: seq<Property>, k: string): seq<Property> {
    var v := Read(o, k);
    if Truthy(v) then Assign(o, k, Increment(v)) else Assign(o, k, Number(1))
  }

  /** Both loops as written, starting from `{}`. */
  function CountAsWritten(keys: seq<string>): seq<Property> {
    if keys == [] then [] else StepAsWritten(CountAsWritten(keys[..|keys| - 1]), keys[|keys| - 1])
  }

  /** A count dictionary seen as the object's own properties. */
  function AsObject(t: seq<Entry<string>>): (o: seq<Property>)
    ensures |o| == |t|
    ensures forall i :: 0 <= i < |t| ==> o[i] == Property(t[i].key, Number(t[i].count))
  {
    seq(|t|, i requires 0 <= i < |t| => Property(t[i].key, Number(t[i].count)))
  }

  lemma OwnIndexAsObject(t: seq<Entry<string>>, k: string)
    ensures OwnIndex(AsObject(t), k) == IndexOf(t, k)
  {
    var o := AsObject(t);
    assert seq(|o|, i requires 0 <= i < |o| => o[i].key) == Keys(t);
  }

  /** On a key that is not an inherited member name, the step as written is `Bump`. */
  lemma StepAgreesWithBump(t: seq<Entry<string>>, k: string)
    requires k !in InheritedNames
    ensures StepAsWritten(AsObject(t), k) == AsObject(Bump(t, k))
  {
    OwnIndexAsObject(t, k);
    var i := IndexOf(t, k);
    if i < |t| {
      assert AsObject(t)[i := Property(k, Number(t[i].count + 1))] == AsObject(t[i := Entry(k, t[i].count + 1)]);
    } else {
      assert AsObject(t) + [Property(k, Number(1))] == AsObject(t + [Entry(k, 1)]);
    }
  }

  /** When no key is an inherited member name, the loops as written produce exactly `Tally`. */
  lemma {:induction false} CountAsWrittenAgrees(keys: seq<string>)
    requires forall i :: 0 <= i < |keys| ==> keys[i] !in InheritedNames
    ensures CountAsWritten(keys) == AsObject(Tally(keys))
    decreases |keys|
  {
    if keys != [] {
      var p := keys[..|keys| - 1];
      var k := keys[|keys| - 1];
      CountAsWrittenAgrees(p);
      assert keys == p + [k];
      TallySnoc(p, k);
      StepAgreesWithBump(Tally(p), k);
    }
  }

  /**
   * A skill named "toString" is counted as NaN instead of 1, and a skill named "__proto__"
   * never appears, while the dictionary the dashboard means holds a count of 1 for each.
   */
  lemma InheritedNamesMiscounted()
    ensures CountAsWritten(["toString"]) == [Property("toString", NotANumber)]
    ensures Tally(["toString"]) == [Entry("toString", 1)]
    ensures CountAsWritten(["__proto__"]) == []
    ensures Tally(["__proto__"]) == [Entry("__proto__", 1)]
  {
    assert ["toString"][..0] == [];
    assert ["__proto__"][..0] == [];
    TallySnoc([], "toString");
    TallySnoc([], "__proto__");
    assert [] + ["toString"] == ["toString"];
    assert [] + ["__proto__"] == ["__proto__"];
  }

  /** No month label is an inherited member name: "Invalid date" is not one, and no name has a space at index 3. */
  lemma MonthLabelNotInherited(start: Option<CalendarDate>)
    ensures MonthLabel(start) !in InheritedNames
  {
    if start.Some? {
      assert |MonthLabel(start)| == 8;
    }
  }

  /** The months loop as written, on an object literal, builds exactly the count of the month labels. */
  lemma MonthCountAsWrittenAgrees(projects: seq<Project>)
    ensures CountAsWritten(MonthLabels(projects)) == AsObject(Tally(MonthLabels(projects)))
  {
    var keys := MonthLabels(projects);
    forall i | 0 <= i < |keys| ensures keys[i] !in InheritedNames {
      MonthLabelNotInherited(projects[i].startDate);
    }
    CountAsWrittenAgrees(keys);
  }
}
