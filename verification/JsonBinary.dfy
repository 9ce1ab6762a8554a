/** Passing of object trees in messages: byte arrays are taken out of JSON, and are put back. */
module JsonBinary {
  import opened Wrappers
  import opened JsonValues

  datatype Ref = Leaf(leaf: Value) | Obj(o: JsObject)

  /** Objects and arrays, whose properties are changed in place. */
  class JsObject {
    const isArray: bool
    var names: seq<string>
    var vals: seq<Ref>
    ghost var value: Value
    ghost var Repr: set<JsObject>

    constructor (isArray: bool)
      ensures Unshared() && fresh(Repr)
      ensures value == Node(isArray, []) && this.isArray == isArray
    {
      this.isArray, names, vals := isArray, [], [];
      value := Node(isArray, []);
      Repr := {this};
    }

    /** Every property has its place in the abstract value, and there are no cycles. */
    ghost predicate Shaped()
      reads this, Repr
    {
      && this in Repr
      && value.Node? && value.isArray == isArray
      && |value.fields| == |names| == |vals|
      && (forall i :: 0 <= i < |vals| ==> value.fields[i].name == names[i])
      && (forall i :: 0 <= i < |vals| && vals[i].Obj? ==>
            vals[i].o in Repr && vals[i].o.Repr < Repr && this !in vals[i].o.Repr)
    }

    /** Abstract value is true to what property holds. */
    ghost predicate IsTrue(i: nat)
      requires Shaped() && i < |vals|
      reads this, Repr
    {
      match vals[i]
      case Leaf(leaf) => !leaf.Node? && value.fields[i].value == leaf
      case Obj(o) => value.fields[i].value == o.value
    }

    /** Objects inside may be shared. */
    ghost predicate Valid()
      reads this, Repr
      decreases Repr
    {
      && Shaped()
      && (forall i :: 0 <= i < |vals| ==> IsTrue(i))
      && (forall i :: 0 <= i < |vals| && vals[i].Obj? ==> vals[i].o.Valid())
    }

    /** Objects inside form a tree. */
    ghost predicate Trees()
      requires Shaped()
      reads this, Repr
      decreases Repr, 0
    {
      && (forall i :: 0 <= i < |vals| && vals[i].Obj? ==> vals[i].o.Unshared())
      && (forall i, j :: 0 <= i < j < |vals| && vals[i].Obj? && vals[j].Obj? ==>
            vals[i].o.Repr !! vals[j].o.Repr)
    }

    ghost predicate Unshared()
      reads this, Repr
      ensures Unshared() ==> Valid()
      decreases Repr, 1
    {
      && Shaped()
      && (forall i :: 0 <= i < |vals| ==> IsTrue(i))
      && Trees()
    }

    /** Assignment of a property that an object doesn't have, yet. */
    method Append(name: string, r: Ref)
      requires Unshared() && IsUnshared(r)
      requires ReprOf(r) !! Repr
      modifies this
      ensures Unshared()
      ensures Repr == old(Repr) + ReprOf(r)
      ensures value == Node(isArray, old(value.fields) + [Field(name, ValueOf(r))])
    {
      names, vals := names + [name], vals + [r];
      value := Node(isArray, value.fields + [Field(name, ValueOf(r))]);
      Repr := Repr + ReprOf(r);
      forall j | 0 <= j < |vals| ensures IsTrue(j) {
        assert j < |vals| - 1 ==> old(IsTrue(j));
      }
    }

    /** Assignment of a property that an object has. */
    method Assign(i: nat, newValue: Value)
      requires Unshared() && i < |vals| && !newValue.Node?
      modifies this`vals, this`value
      ensures Unshared()
      ensures value == Node(isArray, old(value.fields)[i := Field(names[i], newValue)])
    {
      vals := vals[i := Leaf(newValue)];
      value := Node(isArray, value.fields[i := Field(names[i], newValue)]);
      forall j | 0 <= j < |vals| ensures IsTrue(j) {
        assert j != i ==> old(IsTrue(j));
      }
    }

    /** Brings abstract value up to date with a change in one of inner objects. */
    ghost method Refresh(i: nat)
      requires Shaped() && Trees() && i < |vals| && vals[i].Obj?
      requires forall j :: 0 <= j < |vals| && j != i ==> IsTrue(j)
      modifies this`value
      ensures Unshared()
      ensures value == Node(isArray, old(value.fields)[i := Field(names[i], vals[i].o.value)])
    {
      value := Node(isArray, value.fields[i := Field(names[i], vals[i].o.value)]);
      forall j | 0 <= j < |vals| ensures IsTrue(j) {
        assert j != i ==> old(IsTrue(j));
      }
    }

    method IndexOfName(name: string) returns (i: nat)
      requires Valid()
      ensures i == Find(value.fields, name)
    {
      i := 0;
      while i < |names| && names[i] != name
        invariant i <= |names|
        invariant forall j :: 0 <= j < i ==> names[j] != name
      {
        i := i + 1;
      }
      FindIs(value.fields, name, i);
    }
  }

  lemma {:induction false} FindIs(fields: seq<Field>, name: string, i: nat)
    requires i <= |fields| && (i < |fields| ==> fields[i].name == name)
    requires forall j :: 0 <= j < i ==> fields[j].name != name
    ensures Find(fields, name) == i
  {}

  ghost predicate IsValid(r: Ref)
    reads if r.Obj? then {r.o} + r.o.Repr else {}
  {
    if r.Obj? then r.o.Valid() else !r.leaf.Node?
  }

  ghost predicate IsUnshared(r: Ref)
    reads if r.Obj? then {r.o} + r.o.Repr else {}
  {
    if r.Obj? then r.o.Unshared() else !r.leaf.Node?
  }

  ghost function ReprOf(r: Ref): set<JsObject>
    reads if r.Obj? then {r.o} else {}
  {
    if r.Obj? then r.o.Repr else {}
  }

  ghost function ValueOf(r: Ref): Value
    reads if r.Obj? then {r.o} else {}
  {
    if r.Obj? then r.o.value else r.leaf
  }

  /** Copy shares no object with an original. */
  method Copy(orig: Ref) returns (c: Ref)
    requires IsValid(orig)
    ensures IsUnshared(c) && fresh(ReprOf(c))
    ensures ValueOf(c) == ValueOf(orig)
    decreases ReprOf(orig)
  {
    if orig.Leaf? {
      return orig;
    }
    var o := orig.o;
    var copy := new JsObject(o.isArray);
    var i := 0;
    while i < |o.vals|
      invariant i <= |o.vals|
      invariant copy.Unshared() && fresh(copy.Repr)
      invariant copy.value == Node(o.isArray, o.value.fields[..i])
    {
      assert o.IsTrue(i);
      var inner := Copy(o.vals[i]);
      copy.Append(o.names[i], inner);
      i := i + 1;
    }
    c := Obj(copy);
  }

  method FindAllNonJsonable(r: Ref) returns (found: seq<Location>)
    requires IsValid(r)
    ensures found == Locations(Entries(ValueOf(r), false))
    decreases ReprOf(r)
  {
    if r.Leaf? {
      found := if r.leaf.Binary? then [[]] else [];
      return;
    }
    var o := r.o;
    ghost var fields := o.value.fields;
    ghost var total := Locations(EntriesIn(fields, false));
    found := [];
    var i := 0;
    while i < |o.vals|
      invariant i <= |o.vals| == |fields|
      invariant total == found + Locations(EntriesIn(fields[i..], false))
    {
      assert o.IsTrue(i);
      var inChild := FindAllNonJsonable(o.vals[i]);
      LocationsNext(total, found, fields, i);
      found := PushUnder(found, o.names[i], inChild, Entries(fields[i].value, false));
      i := i + 1;
    }
  }

  lemma LocationsNext(total: seq<Location>, found: seq<Location>, fields: seq<Field>, i: nat)
    requires i < |fields| && total == found + Locations(EntriesIn(fields[i..], false))
    ensures total == found + Locations(Under(fields[i].name, Entries(fields[i].value, false)))
                     + Locations(EntriesIn(fields[i + 1..], false))
  {
    LocationsOfBoth(Under(fields[i].name, Entries(fields[i].value, false)), EntriesIn(fields[i + 1..], false));
    assert fields[i..][1..] == fields[i + 1..];
  }

  method PushUnder(found: seq<Location>, name: string, inChild: seq<Location>, ghost entries: seq<Entry>)
    returns (all: seq<Location>)
    requires inChild == Locations(entries)
    ensures all == found + Locations(Under(name, entries))
  {
    all := found;
    var k := 0;
    while k < |inChild|
      invariant k <= |inChild|
      invariant all == found + Locations(Under(name, entries))[..k]
    {
      assert Locations(Under(name, entries))[k] == [name] + inChild[k];
      all := all + [[name] + inChild[k]];
      k := k + 1;
    }
  }

  method GetValueAt(o: JsObject, location: Location) returns (r: Ref)
    requires o.Valid() && |location| > 0 && Leads(o.value, location)
    ensures IsValid(r) && ValueOf(r) == At(o.value, location)
    decreases |location|
  {
    var i := o.IndexOfName(location[0]);
    assert o.IsTrue(i);
    var value := o.vals[i];
    if |location| > 1 {
      r := GetValueAt(value.o, location[1..]);
    } else {
      r := value;
    }
  }

  lemma PutInField(v: Value, location: Location, w: Value)
    requires |location| > 0 && Leads(v, location)
    ensures var i := Find(v.fields, location[0]);
            && i < |v.fields| && Leads(v.fields[i].value, location[1..])
            && (|location| > 1 ==> v.fields[i].value.Node?)
            && Put(v, location, w)
            == Node(v.isArray, v.fields[i := Field(location[0], Put(v.fields[i].value, location[1..], w))])
  {}

  /** Only one place in the tree is changed. */
  method SetNewValueAt(o: JsObject, location: Location, newValue: Value)
    requires o.Unshared() && !newValue.Node?
    requires |location| > 0 && Leads(o.value, location)
    modifies o.Repr
    ensures o.Unshared() && o.Repr == old(o.Repr)
    ensures o.value == Put(old(o.value), location, newValue)
    decreases |location|, 1
  {
    var i := o.IndexOfName(location[0]);
    assert o.IsTrue(i);
    PutInField(o.value, location, newValue);
    if |location| > 1 {
      SetNewValueInside(o, i, location[1..], newValue);
    } else {
      o.Assign(i, newValue);
    }
  }

  /** A change inside of one property can't be seen from others. */
  method SetNewValueInside(o: JsObject, i: nat, location: Location, newValue: Value)
    requires o.Unshared() && !newValue.Node?
    requires i < |o.vals| && o.vals[i].Obj?
    requires |location| > 0 && Leads(o.vals[i].o.value, location)
    modifies o.Repr
    ensures o.Unshared() && o.Repr == old(o.Repr)
    ensures o.value == Node(o.isArray, old(o.value.fields)[
              i := Field(old(o.value.fields)[i].name, Put(old(o.vals[i].o.value), location, newValue))])
    decreases |location|, 2
  {
    SetNewValueAt(o.vals[i].o, location, newValue);
    forall j | 0 <= j < |o.vals| && j != i ensures o.IsTrue(j) {
      assert old(o.IsTrue(j));
    }
    o.Refresh(i);
  }

  /** Given object is left as it was, and objects of a copy are all new. */
  method ExtractNonJsonableFrom(arg: JsObject) returns (parts: Option<(JsObject, seq<Entry>)>)
    requires arg.Valid() && WellFormed(arg.value)
    ensures parts.None? <==> Entries(arg.value, false) == []
    ensures parts.Some? ==>
              && var (copy, binaryInJson) := parts.value;
              && copy.Unshared() && fresh(copy.Repr)
              && copy.value == Shown(arg.value, true)
              && binaryInJson == Entries(arg.value, false)
  {
    var locations := FindAllNonJsonable(Obj(arg));
    if |locations| == 0 {
      return None;
    }
    ghost var blanks, arrays := Entries(arg.value, true), Entries(arg.value, false);
    AllAreToMove(arg.value);
    NotBlankedIsSame(arg.value);
    EntriesGive(arg.value, false, true);
    var c := Copy(Obj(arg));
    var binaryInJson := MoveBinaries(arg, c.o, locations, blanks, arrays, Shown(arg.value, true));
    parts := Some((c.o, binaryInJson));
  }

  predicate HasBinaryAt(v: Value, e: Entry) {
    |e.location| > 0 && Leads(v, e.location) && At(v, e.location) == e.value && e.value.Binary?
  }

  predicate IsToMove(v: Value, location: Location, blank: Entry, e: Entry) {
    blank == Entry(location, Null) && e.location == location && HasBinaryAt(v, e)
  }

  lemma AllAreToMove(v: Value)
    requires WellFormed(v) && v.Node?
    ensures |Entries(v, true)| == |Entries(v, false)|
    ensures forall k :: 0 <= k < |Entries(v, false)| ==>
              IsToMove(v, Locations(Entries(v, false))[k], Entries(v, true)[k], Entries(v, false)[k])
  {
    SameLocations(v);
    assert |Entries(v, true)| == |Locations(Entries(v, true))|;
    forall k | 0 <= k < |Entries(v, false)|
      ensures IsToMove(v, Locations(Entries(v, false))[k], Entries(v, true)[k], Entries(v, false)[k])
    {
      var e := Entries(v, false)[k];
      assert Lists(Entries(v, false), e.location, e.value);
      EntriesAreExact(v, e.location, e.value);
      assert Locations(Entries(v, true))[k] == e.location && Entries(v, true)[k] in Entries(v, true);
    }
  }

  method MoveBinary(arg: JsObject, copy: JsObject, location: Location, ghost e: Entry) returns (moved: Entry)
    requires arg.Valid() && copy.Unshared() && arg.Repr !! copy.Repr
    requires HasBinaryAt(arg.value, e) && e.location == location
    requires Leads(copy.value, location)
    modifies copy.Repr
    ensures copy.Unshared() && copy.Repr == old(copy.Repr)
    ensures copy.value == Put(old(copy.value), location, Null)
    ensures moved == e
  {
    var nonJson := GetValueAt(arg, location);
    SetNewValueAt(copy, location, Null);
    moved := Entry(location, nonJson.leaf);
  }

  method MoveBinaries(arg: JsObject, copy: JsObject, locations: seq<Location>,
                      ghost blanks: seq<Entry>, ghost arrays: seq<Entry>, ghost blanked: Value)
    returns (binaryInJson: seq<Entry>)
    requires arg.Valid() && copy.Unshared() && arg.Repr !! copy.Repr
    requires |locations| == |blanks| == |arrays|
    requires forall k :: 0 <= k < |locations| ==> IsToMove(arg.value, locations[k], blanks[k], arrays[k])
    requires Gives(copy.value, blanks, blanked)
    modifies copy.Repr
    ensures copy.Unshared() && copy.Repr == old(copy.Repr)
    ensures copy.value == blanked
    ensures binaryInJson == arrays
  {
    binaryInJson := [];
    var k := 0;
    while k < |locations|
      invariant k <= |locations| == |blanks| == |arrays|
      invariant copy.Unshared() && copy.Repr == old(copy.Repr)
      invariant Gives(copy.value, blanks[k..], blanked)
      invariant |binaryInJson| == k && forall j :: 0 <= j < k ==> binaryInJson[j] == arrays[j]
    {
      assert IsToMove(arg.value, locations[k], blanks[k], arrays[k]);
      GivesNext(copy.value, blanks, k, blanked);
      var moved := MoveBinary(arg, copy, locations[k], arrays[k]);
      binaryInJson := binaryInJson + [moved];
      k := k + 1;
    }
  }

  method AttachBinaryArrays(arg: JsObject, binaryInJson: seq<Entry>)
    requires arg.Unshared() && AllLead(arg.value, binaryInJson)
    requires forall e :: e in binaryInJson ==> e.value.Binary? && |e.location| > 0
    modifies arg.Repr
    ensures arg.Unshared() && arg.Repr == old(arg.Repr)
    ensures arg.value == PutAll(old(arg.value), binaryInJson)
  {
    var k := 0;
    while k < |binaryInJson|
      invariant k <= |binaryInJson|
      invariant arg.Unshared() && arg.Repr == old(arg.Repr)
      invariant Gives(arg.value, binaryInJson[k..], PutAll(old(arg.value), binaryInJson))
    {
      var e := binaryInJson[k];
      GivesNext(arg.value, binaryInJson, k, PutAll(old(arg.value), binaryInJson));
      SetNewValueAt(arg, e.location, e.value);
      k := k + 1;
    }
  }

  // ---------- JSON text

  /** Text is given as a tree of what is written in it. */
  method Stringify(r: Ref) returns (text: Value)
    requires IsValid(r)
    ensures text == Text(ValueOf(r))
    decreases ReprOf(r)
  {
    if r.Leaf? {
      return r.leaf;
    }
    var o := r.o;
    ghost var fields := o.value.fields;
    ghost var total := TextIn(o.isArray, fields);
    var written: seq<Field> := [];
    var i := 0;
    while i < |o.vals|
      invariant i <= |o.vals| == |fields|
      invariant total == written + TextIn(o.isArray, fields[i..])
    {
      assert o.IsTrue(i);
      var inner := Stringify(o.vals[i]);
      TextNext(o.isArray, total, written, fields, i);
      written := written + TextOfOne(o.isArray, o.names[i], inner);
      i := i + 1;
    }
    text := Node(o.isArray, written);
  }

  lemma TextNext(isArray: bool, total: seq<Field>, written: seq<Field>, fields: seq<Field>, i: nat)
    requires i < |fields| && total == written + TextIn(isArray, fields[i..])
    ensures total == written + TextOfOne(isArray, fields[i].name, Text(fields[i].value))
                     + TextIn(isArray, fields[i + 1..])
  {
    assert fields[i..][1..] == fields[i + 1..];
  }

  method Parse(text: Value) returns (r: Ref)
    ensures IsUnshared(r) && fresh(ReprOf(r))
    ensures ValueOf(r) == text
    decreases text
  {
    if !text.Node? {
      return Leaf(text);
    }
    var o := new JsObject(text.isArray);
    var i := 0;
    while i < |text.fields|
      invariant i <= |text.fields|
      invariant o.Unshared() && fresh(o.Repr)
      invariant o.value == Node(text.isArray, text.fields[..i])
    {
      var inner := Parse(text.fields[i].value);
      o.Append(text.fields[i].name, inner);
      i := i + 1;
    }
    r := Obj(o);
  }

  // ---------- arguments of calls

  method SerializeArg(arg: Ref) returns (w: Wire)
    requires IsValid(arg) && WellFormed(ValueOf(arg))
    ensures w == ToWire(ValueOf(arg))
  {
    if arg.Obj? {
      var parts := ExtractNonJsonableFrom(arg.o);
      if parts.Some? {
        var json := Stringify(Obj(parts.value.0));
        w := Wire(Some(json), parts.value.1, None);
      } else {
        var json := Stringify(arg);
        w := Wire(Some(json), [], None);
        SameLocations(arg.o.value);
        assert |Locations(Entries(arg.o.value, true))| == 0;
        NothingToBlank(arg.o.value);
      }
    } else if arg.leaf.Binary? {
      w := Wire(None, [], Some(arg.leaf.bytes));
    } else {
      w := Wire(if arg.leaf.Undefined? then None else Some(arg.leaf), [], None);
    }
  }

  method DeserializeArg(w: Wire) returns (arg: Ref)
    requires Readable(w)
    ensures IsUnshared(arg) && fresh(ReprOf(arg))
    ensures ValueOf(arg) == FromWire(w)
  {
    if w.arr.Some? {
      arg := Leaf(Binary(w.arr.value));
    } else if w.json.Some? {
      arg := Parse(w.json.value);
      if |w.binaryInJson| > 0 {
        AttachBinaryArrays(arg.o, w.binaryInJson);
      }
    } else {
      arg := Leaf(Undefined);
    }
  }

  /** Arguments are not changed by serialization, as it modifies no existing object. */
  method SerializeArgs(args: seq<Ref>) returns (values: seq<Wire>)
    requires forall i :: 0 <= i < |args| ==> IsValid(args[i]) && WellFormed(ValueOf(args[i]))
    ensures |values| == |args|
    ensures forall i :: 0 <= i < |args| ==> values[i] == ToWire(ValueOf(args[i])) && IsBlanked(values[i])
  {
    values := [];
    var i := 0;
    while i < |args|
      invariant i <= |args| && |values| == i
      invariant forall j :: 0 <= j < i ==> values[j] == ToWire(ValueOf(args[j])) && IsBlanked(values[j])
    {
      var w := SerializeArg(args[i]);
      WireIsBlanked(ValueOf(args[i]));
      values := values + [w];
      i := i + 1;
    }
  }

  method DeserializeArgs(values: seq<Wire>) returns (args: seq<Ref>)
    requires forall i :: 0 <= i < |values| ==> Readable(values[i])
    ensures |args| == |values|
    ensures forall i :: 0 <= i < |args| ==> IsUnshared(args[i]) && ValueOf(args[i]) == FromWire(values[i])
  {
    args := [];
    var i := 0;
    while i < |values|
      invariant i <= |values| && |args| == i
      invariant forall j :: 0 <= j < i ==> IsUnshared(args[j]) && ValueOf(args[j]) == FromWire(values[j])
    {
      var arg := DeserializeArg(values[i]);
      args := args + [arg];
      i := i + 1;
    }
  }
}
