/** Values passed in calls: JSON trees with byte arrays in them, and their form for messages. */
module JsonValues {
  import opened Wrappers

  type Bytes = seq<bv8>

  /** Names of properties that lead from a value into its depth. */
  type Location = seq<string>

  datatype Field = Field(name: string, value: Value)

  /** Undefined stands also for functions, as copying and JSON text treat both in one way.
    * Arrays are nodes with decimal names. */
  datatype Value =
    | Undefined
    | Null
    | Plain(json: string)
    | Binary(bytes: Bytes)
    | Node(isArray: bool, fields: seq<Field>)

  datatype Entry = Entry(location: Location, value: Value)

  // ---------- names

  function Digit(d: nat): char
    requires d < 10
  {
    ('0' as int + d) as char
  }

  function Decimal(n: nat): (s: string)
    ensures |s| > 0 && s[|s| - 1] == Digit(n % 10)
  {
    if n < 10 then [Digit(n)] else Decimal(n / 10) + [Digit(n % 10)]
  }

  lemma {:induction false} DecimalsDiffer(m: nat, n: nat)
    requires m < n
    ensures Decimal(m) != Decimal(n)
  {
    if m % 10 == n % 10 {
      var s := Decimal(n / 10);
      assert Decimal(n)[..|s|] == s;
      if m >= 10 {
        DecimalsDiffer(m / 10, n / 10);
        assert Decimal(m)[..|Decimal(m)| - 1] == Decimal(m / 10);
      }
    }
  }

  predicate Distinct(fields: seq<Field>) {
    forall i, j :: 0 <= i < j < |fields| ==> fields[i].name != fields[j].name
  }

  predicate Numbered(fields: seq<Field>) {
    forall i :: 0 <= i < |fields| ==> fields[i].name == Decimal(i)
  }

  predicate ProperNames(isArray: bool, fields: seq<Field>) {
    if isArray then Numbered(fields) else Distinct(fields)
  }

  predicate WellFormed(v: Value) {
    v.Node? ==>
      && ProperNames(v.isArray, v.fields)
      && forall i :: 0 <= i < |v.fields| ==> WellFormed(v.fields[i].value)
  }

  lemma ProperAreDistinct(isArray: bool, fields: seq<Field>)
    requires ProperNames(isArray, fields)
    ensures Distinct(fields)
  {
    if isArray {
      forall i, j | 0 <= i < j < |fields| ensures fields[i].name != fields[j].name {
        DecimalsDiffer(i, j);
      }
    }
  }

  /** Position of the first field with a given name, or the number of fields. */
  function Find(fields: seq<Field>, name: string): (i: nat)
    ensures i <= |fields|
    ensures i < |fields| ==> fields[i].name == name
    ensures forall j :: 0 <= j < i ==> fields[j].name != name
  {
    if |fields| == 0 || fields[0].name == name then 0 else 1 + Find(fields[1..], name)
  }

  // ---------- values at locations

  predicate Leads(v: Value, location: Location)
    decreases |location|
  {
    |location| > 0 ==>
      && v.Node?
      && var i := Find(v.fields, location[0]);
         i < |v.fields| && Leads(v.fields[i].value, location[1..])
  }

  function At(v: Value, location: Location): Value
    requires Leads(v, location)
    decreases |location|
  {
    if |location| == 0 then v
    else At(v.fields[Find(v.fields, location[0])].value, location[1..])
  }

  function Put(v: Value, location: Location, w: Value): Value
    requires Leads(v, location)
    decreases |location|
  {
    if |location| == 0 then w
    else
      var i := Find(v.fields, location[0]);
      v.(fields := v.fields[i := v.fields[i].(value := Put(v.fields[i].value, location[1..], w))])
  }

  predicate AllLead(v: Value, entries: seq<Entry>)
    decreases |entries|
  {
    |entries| > 0 ==>
      && Leads(v, entries[0].location)
      && AllLead(Put(v, entries[0].location, entries[0].value), entries[1..])
  }

  function PutAll(v: Value, entries: seq<Entry>): Value
    requires AllLead(v, entries)
    decreases |entries|
  {
    if |entries| == 0 then v
    else PutAll(Put(v, entries[0].location, entries[0].value), entries[1..])
  }

  // ---------- byte arrays of a value

  function Under(name: string, entries: seq<Entry>): (under: seq<Entry>)
    ensures |under| == |entries|
  {
    seq(|entries|, i requires 0 <= i < |entries| =>
        Entry([name] + entries[i].location, entries[i].value))
  }

  /** Locations of byte arrays, with either nulls for these places or arrays themselves. */
  function Entries(v: Value, blank: bool): seq<Entry>
    decreases v
  {
    match v
    case Binary(_) => [Entry([], if blank then Null else v)]
    case Node(_, fields) => EntriesIn(fields, blank)
    case _ => []
  }

  function EntriesIn(fields: seq<Field>, blank: bool): seq<Entry>
    decreases fields
  {
    if |fields| == 0 then []
    else Under(fields[0].name, Entries(fields[0].value, blank)) + EntriesIn(fields[1..], blank)
  }

  /** A value with nulls in place of byte arrays, when blanked. */
  function Shown(v: Value, blank: bool): Value
    decreases v
  {
    match v
    case Binary(_) => if blank then Null else v
    case Node(isArray, fields) => Node(isArray, ShownIn(fields, blank))
    case _ => v
  }

  function ShownIn(fields: seq<Field>, blank: bool): (shown: seq<Field>)
    ensures |shown| == |fields|
    ensures forall i :: 0 <= i < |fields| ==> shown[i].name == fields[i].name
    decreases fields
  {
    if |fields| == 0 then []
    else [Field(fields[0].name, Shown(fields[0].value, blank))] + ShownIn(fields[1..], blank)
  }

  /** What parsing gives back from the JSON text of a value. */
  function Text(v: Value): Value
    decreases v
  {
    if v.Node? then Node(v.isArray, TextIn(v.isArray, v.fields)) else v
  }

  /** Undefined is skipped in objects, and turns into null in arrays. */
  function TextOfOne(isArray: bool, name: string, text: Value): seq<Field> {
    if !text.Undefined? then [Field(name, text)] else if isArray then [Field(name, Null)] else []
  }

  function TextIn(isArray: bool, fields: seq<Field>): seq<Field>
    decreases fields
  {
    if |fields| == 0 then []
    else
      TextOfOne(isArray, fields[0].name, Text(fields[0].value)) + TextIn(isArray, fields[1..])
  }

  /** Nothing inside of a value is undefined. */
  predicate NothingUndefined(v: Value) {
    v.Node? ==>
      forall i :: 0 <= i < |v.fields| ==>
        !v.fields[i].value.Undefined? && NothingUndefined(v.fields[i].value)
  }

  ghost predicate IsWritten(f: Field, fields: seq<Field>) {
    exists g :: g in fields && !g.value.Undefined? && f == Field(g.name, Text(g.value))
  }

  /** In text arrays have nulls for what is undefined, and objects have no such fields. */
  lemma {:induction false} FieldsOfText(fields: seq<Field>)
    ensures |TextIn(true, fields)| == |fields|
    ensures forall i :: 0 <= i < |fields| ==>
              TextIn(true, fields)[i] ==
              Field(fields[i].name, if fields[i].value.Undefined? then Null else Text(fields[i].value))
    ensures forall f :: f in TextIn(false, fields) <==> IsWritten(f, fields)
    decreases |fields|
  {
    if |fields| > 0 {
      var first, rest := fields[0], fields[1..];
      FieldsOfText(rest);
      assert fields == [first] + rest;
      forall f ensures IsWritten(f, fields) <==> IsWritten(f, [first]) || IsWritten(f, rest) {
        if IsWritten(f, rest) {
          var g :| g in rest && !g.value.Undefined? && f == Field(g.name, Text(g.value));
          assert g in fields;
        }
      }
      var one := TextOfOne(false, first.name, Text(first.value));
      forall f ensures f in one <==> IsWritten(f, [first]) {
        assert first in [first];
      }
    }
  }

  // ---------- putting values at all locations

  predicate Gives(v: Value, entries: seq<Entry>, w: Value) {
    AllLead(v, entries) && PutAll(v, entries) == w
  }

  lemma {:induction false} GivesBoth(v: Value, first: seq<Entry>, u: Value, second: seq<Entry>, w: Value)
    requires Gives(v, first, u) && Gives(u, second, w)
    ensures Gives(v, first + second, w)
    decreases |first|
  {
    if |first| == 0 {
      assert first + second == second;
    } else {
      assert (first + second)[1..] == first[1..] + second;
      GivesBoth(Put(v, first[0].location, first[0].value), first[1..], u, second, w);
    }
  }

  lemma GivesNext(v: Value, entries: seq<Entry>, k: nat, w: Value)
    requires k < |entries| && Gives(v, entries[k..], w)
    ensures Leads(v, entries[k].location)
    ensures Gives(Put(v, entries[k].location, entries[k].value), entries[k + 1..], w)
  {
    assert entries[k..][1..] == entries[k + 1..];
  }

  /** Entries below one field touch nothing but that field. */
  lemma {:induction false} GivesUnder(
    isArray: bool, done: seq<Field>, f: Field, rest: seq<Field>, entries: seq<Entry>, w: Value
  )
    requires forall i :: 0 <= i < |done| ==> done[i].name != f.name
    requires Gives(f.value, entries, w)
    ensures Gives(Node(isArray, done + [f] + rest), Under(f.name, entries),
                  Node(isArray, done + [Field(f.name, w)] + rest))
    decreases |entries|
  {
    if |entries| > 0 {
      var v := Node(isArray, done + [f] + rest);
      var under := Under(f.name, entries);
      assert v.fields[|done|] == f && Find(v.fields, f.name) == |done|;
      assert under[0].location[1..] == entries[0].location;
      assert under[1..] == Under(f.name, entries[1..]);
      var f' := Field(f.name, Put(f.value, entries[0].location, entries[0].value));
      assert v.fields[|done| := f'] == done + [f'] + rest;
      GivesUnder(isArray, done, f', rest, entries[1..], w);
    }
  }

  /** Locations of byte arrays lead to the same places, with and without arrays being there. */
  lemma {:induction false} EntriesGive(v: Value, was: bool, blank: bool)
    requires WellFormed(v)
    ensures Gives(Shown(v, was), Entries(v, blank), Shown(v, blank))
    decreases v, 0
  {
    if v.Binary? {
      GivesAtOnce(Shown(v, was), Shown(v, blank));
    } else if v.Node? {
      EntriesOfNodeGive(v.isArray, v.fields, was, blank);
    }
  }

  lemma {:induction false} EntriesOfNodeGive(isArray: bool, fields: seq<Field>, was: bool, blank: bool)
    requires ProperNames(isArray, fields)
    requires forall i :: 0 <= i < |fields| ==> WellFormed(fields[i].value)
    ensures Gives(Node(isArray, ShownIn(fields, was)), EntriesIn(fields, blank),
                  Node(isArray, ShownIn(fields, blank)))
    decreases fields, 2
  {
    ProperAreDistinct(isArray, fields);
    EntriesInGive(isArray, [], fields, was, blank);
    assert [] + ShownIn(fields, was) == ShownIn(fields, was);
    assert [] + ShownIn(fields, blank) == ShownIn(fields, blank);
  }

  lemma GivesAtOnce(v: Value, w: Value)
    ensures Gives(v, [Entry([], w)], w)
  {
    assert Gives(Put(v, [], w), [Entry([], w)][1..], w);
  }

  lemma {:induction false} EntriesInGive(
    isArray: bool, done: seq<Field>, rest: seq<Field>, was: bool, blank: bool
  )
    requires Apart(done, rest)
    requires forall i :: 0 <= i < |rest| ==> WellFormed(rest[i].value)
    ensures Gives(Node(isArray, done + ShownIn(rest, was)), EntriesIn(rest, blank),
                  Node(isArray, done + ShownIn(rest, blank)))
    decreases rest, 1
  {
    if |rest| > 0 {
      var first, later := rest[0], rest[1..];
      var before := Field(first.name, Shown(first.value, was));
      var after := Field(first.name, Shown(first.value, blank));
      ApartNext(done, rest, after);
      EntriesGive(first.value, was, blank);
      EntriesInGive(isArray, done + [after], later, was, blank);
      ShownOneMore(done, rest, was);
      ShownOneMore(done, rest, blank);
      GivesFirst(isArray, done, before, ShownIn(later, was), Entries(first.value, blank), after.value,
                 EntriesIn(later, blank), Node(isArray, done + ShownIn(rest, blank)));
    }
  }

  /** No name is used twice in the rest, nor used both in it and in a part that is done. */
  predicate Apart(done: seq<Field>, rest: seq<Field>) {
    && Distinct(rest)
    && forall i, j :: 0 <= i < |done| && 0 <= j < |rest| ==> done[i].name != rest[j].name
  }

  lemma ApartNext(done: seq<Field>, rest: seq<Field>, f: Field)
    requires |rest| > 0 && Apart(done, rest) && f.name == rest[0].name
    ensures Apart(done + [f], rest[1..])
    ensures forall i :: 0 <= i < |done| ==> done[i].name != f.name
  {}

  lemma ShownOneMore(done: seq<Field>, rest: seq<Field>, blank: bool)
    requires |rest| > 0
    ensures done + ShownIn(rest, blank)
         == done + [Field(rest[0].name, Shown(rest[0].value, blank))] + ShownIn(rest[1..], blank)
  {}

  lemma GivesFirst(isArray: bool, done: seq<Field>, f: Field, rest: seq<Field>, entries: seq<Entry>, w: Value,
                   more: seq<Entry>, end: Value)
    requires forall i :: 0 <= i < |done| ==> done[i].name != f.name
    requires Gives(f.value, entries, w)
    requires Gives(Node(isArray, done + [Field(f.name, w)] + rest), more, end)
    ensures Gives(Node(isArray, done + [f] + rest), Under(f.name, entries) + more, end)
  {
    GivesUnder(isArray, done, f, rest, entries, w);
    GivesBoth(Node(isArray, done + [f] + rest), Under(f.name, entries),
              Node(isArray, done + [Field(f.name, w)] + rest), more, end);
  }

  lemma {:induction false} NotBlankedIsSame(v: Value)
    ensures Shown(v, false) == v
    decreases v, 0
  {
    if v.Node? { NotBlankedAreSame(v.fields); }
  }

  lemma {:induction false} NotBlankedAreSame(fields: seq<Field>)
    ensures ShownIn(fields, false) == fields
    decreases fields, 1
  {
    if |fields| > 0 {
      NotBlankedIsSame(fields[0].value);
      NotBlankedAreSame(fields[1..]);
    }
  }

  // ---------- JSON text and byte arrays

  /** Going through text does not change places of byte arrays. */
  lemma {:induction false} TextKeepsPlaces(v: Value, blank: bool)
    ensures Entries(Text(v), blank) == Entries(v, blank)
    decreases v, 0
  {
    if v.Node? { TextKeepsPlacesIn(v.isArray, v.fields, blank); }
  }

  lemma {:induction false} TextKeepsPlacesIn(isArray: bool, fields: seq<Field>, blank: bool)
    ensures EntriesIn(TextIn(isArray, fields), blank) == EntriesIn(fields, blank)
    decreases fields, 1
  {
    if |fields| > 0 {
      var first, rest := fields[0], fields[1..];
      TextKeepsPlaces(first.value, blank);
      TextKeepsPlacesIn(isArray, rest, blank);
      TextOfFirst(isArray, fields);
      if first.value.Undefined? {
        assert Under(first.name, []) + EntriesIn(rest, blank) == EntriesIn(rest, blank);
      }
    }
  }

  lemma TextOfFirst(isArray: bool, fields: seq<Field>)
    requires |fields| > 0
    ensures var t, first := TextIn(isArray, fields), fields[0];
            if first.value.Undefined? && !isArray then t == TextIn(isArray, fields[1..])
            else |t| > 0 && t[1..] == TextIn(isArray, fields[1..])
                 && t[0] == Field(first.name, if first.value.Undefined? then Null else Text(first.value))
  {
  }

  /** Blanking before text gives what blanking after it does. */
  lemma {:induction false} TextKeepsBlanks(v: Value, blank: bool)
    ensures Text(Shown(v, blank)) == Shown(Text(v), blank)
    decreases v, 0
  {
    if v.Node? { TextKeepsBlanksIn(v.isArray, v.fields, blank); }
  }

  lemma {:induction false} TextKeepsBlanksIn(isArray: bool, fields: seq<Field>, blank: bool)
    ensures TextIn(isArray, ShownIn(fields, blank)) == ShownIn(TextIn(isArray, fields), blank)
    decreases fields, 1
  {
    if |fields| > 0 {
      TextKeepsBlanks(fields[0].value, blank);
      TextKeepsBlanksIn(isArray, fields[1..], blank);
      TextOfFirst(isArray, fields);
      TextOfFirst(isArray, ShownIn(fields, blank));
      assert ShownIn(fields, blank)[1..] == ShownIn(fields[1..], blank);
    }
  }

  lemma {:induction false} TextIsWellFormed(v: Value)
    requires WellFormed(v)
    ensures WellFormed(Text(v))
    decreases v, 0
  {
    if v.Node? {
      TextsAreWellFormed(v.isArray, v.fields);
      TextNames(v.isArray, v.fields);
    }
  }

  lemma {:induction false} TextsAreWellFormed(isArray: bool, fields: seq<Field>)
    requires forall i :: 0 <= i < |fields| ==> WellFormed(fields[i].value)
    ensures forall i :: 0 <= i < |TextIn(isArray, fields)| ==> WellFormed(TextIn(isArray, fields)[i].value)
    decreases fields, 1
  {
    if |fields| > 0 {
      TextIsWellFormed(fields[0].value);
      TextsAreWellFormed(isArray, fields[1..]);
    }
  }

  function Names(fields: seq<Field>): set<string> {
    set i | 0 <= i < |fields| :: fields[i].name
  }

  lemma {:induction false} TextNames(isArray: bool, fields: seq<Field>)
    ensures Names(TextIn(isArray, fields)) <= Names(fields)
    ensures Distinct(fields) ==> Distinct(TextIn(isArray, fields))
    ensures isArray ==> |TextIn(isArray, fields)| == |fields|
    ensures isArray ==> forall i :: 0 <= i < |fields| ==> TextIn(isArray, fields)[i].name == fields[i].name
  {
    if |fields| > 0 {
      var rest := fields[1..];
      TextNames(isArray, rest);
      FirstName(fields);
      var t, u := TextIn(isArray, fields), TextIn(isArray, rest);
      if |t| > |u| {
        assert t[1..] == u;
        FirstName(t);
      } else {
        assert t == u;
      }
    }
  }

  lemma FirstName(fields: seq<Field>)
    requires |fields| > 0
    ensures Names(fields) == {fields[0].name} + Names(fields[1..])
    ensures Distinct(fields) <==> fields[0].name !in Names(fields[1..]) && Distinct(fields[1..])
  {
    var rest := fields[1..];
    assert forall i :: 0 <= i < |rest| ==> rest[i] == fields[i + 1];
    assert forall i :: 1 <= i < |fields| ==> fields[i] == rest[i - 1];
  }

  /** Text gives back a value exactly when nothing in it is undefined. */
  lemma {:induction false} TextIsSame(v: Value)
    ensures Text(v) == v <==> NothingUndefined(v)
    decreases v, 0
  {
    if v.Node? { TextInIsSame(v.isArray, v.fields); }
  }

  predicate AllDefined(fields: seq<Field>) {
    forall i :: 0 <= i < |fields| ==> !fields[i].value.Undefined? && NothingUndefined(fields[i].value)
  }

  lemma DefinedNext(fields: seq<Field>)
    requires |fields| > 0
    ensures AllDefined(fields) <==>
            && !fields[0].value.Undefined? && NothingUndefined(fields[0].value)
            && AllDefined(fields[1..])
  {
    var rest := fields[1..];
    assert forall i :: 0 <= i < |rest| ==> fields[i + 1] == rest[i];
    assert forall i :: 1 <= i < |fields| ==> fields[i] == rest[i - 1];
  }

  lemma SameNext(a: seq<Field>, b: seq<Field>)
    requires |a| > 0 && |b| > 0
    ensures a == b <==> a[0] == b[0] && a[1..] == b[1..]
  {
    assert a == [a[0]] + a[1..] && b == [b[0]] + b[1..];
  }

  lemma {:induction false} TextInIsSame(isArray: bool, fields: seq<Field>)
    ensures |TextIn(isArray, fields)| <= |fields|
    ensures TextIn(isArray, fields) == fields <==> AllDefined(fields)
    decreases fields, 1
  {
    if |fields| > 0 {
      var first, t := fields[0], TextIn(isArray, fields);
      TextIsSame(first.value);
      TextInIsSame(isArray, fields[1..]);
      TextOfFirst(isArray, fields);
      DefinedNext(fields);
      if |t| == |fields| {
        SameNext(t, fields);
      }
    }
  }

  // ---------- places of byte arrays

  function Locations(entries: seq<Entry>): (locations: seq<Location>)
    ensures |locations| == |entries|
  {
    seq(|entries|, i requires 0 <= i < |entries| => entries[i].location)
  }

  predicate Lists(entries: seq<Entry>, location: Location, w: Value) {
    Entry(location, w) in entries
  }

  /** All byte arrays, and nothing else, are listed with their locations. */
  lemma {:induction false} EntriesAreExact(v: Value, location: Location, w: Value)
    requires WellFormed(v)
    ensures Lists(Entries(v, false), location, w) <==>
            Leads(v, location) && At(v, location) == w && w.Binary?
    decreases v, 0
  {
    if v.Node? {
      EntriesInAreExact(v.fields, location, w);
      ProperAreDistinct(v.isArray, v.fields);
    }
  }

  lemma {:induction false} EntriesInAreExact(fields: seq<Field>, location: Location, w: Value)
    requires forall i :: 0 <= i < |fields| ==> WellFormed(fields[i].value)
    ensures Distinct(fields) ==> (Lists(EntriesIn(fields, false), location, w) <==>
            |location| > 0 && w.Binary? &&
            var i := Find(fields, location[0]);
            i < |fields| && Leads(fields[i].value, location[1..]) && At(fields[i].value, location[1..]) == w)
    decreases fields, 1
  {
    if |fields| > 0 && Distinct(fields) {
      var first, rest := fields[0], fields[1..];
      EntriesInAreExact(rest, location, w);
      UnderLists(first.name, Entries(first.value, false), location, w);
      if |location| > 0 {
        EntriesAreExact(first.value, location[1..], w);
        if location[0] == first.name {
          assert Find(rest, location[0]) == |rest|;
        } else {
          assert Find(fields, location[0]) == 1 + Find(rest, location[0]);
        }
      }
    }
  }

  lemma UnderLists(name: string, entries: seq<Entry>, location: Location, w: Value)
    ensures Lists(Under(name, entries), location, w) <==>
            |location| > 0 && location[0] == name && Lists(entries, location[1..], w)
  {
    if |location| > 0 && location[0] == name && Lists(entries, location[1..], w) {
      var k :| 0 <= k < |entries| && entries[k] == Entry(location[1..], w);
      assert location == [name] + location[1..];
      assert Under(name, entries)[k] == Entry(location, w);
    }
    if Lists(Under(name, entries), location, w) {
      var k :| 0 <= k < |entries| && Under(name, entries)[k] == Entry(location, w);
      assert entries[k] == Entry(location[1..], w);
    }
  }

  /** Blanking pass and the listing of arrays go over the same locations. */
  lemma {:induction false} SameLocations(v: Value)
    ensures Locations(Entries(v, true)) == Locations(Entries(v, false))
    ensures forall e :: e in Entries(v, true) ==> e.value == Null
    decreases v, 0
  {
    if v.Node? { SameLocationsIn(v.fields); }
  }

  lemma {:induction false} SameLocationsIn(fields: seq<Field>)
    ensures Locations(EntriesIn(fields, true)) == Locations(EntriesIn(fields, false))
    ensures forall e :: e in EntriesIn(fields, true) ==> e.value == Null
    decreases fields, 1
  {
    if |fields| > 0 {
      var name, v := fields[0].name, fields[0].value;
      SameLocations(v);
      SameLocationsIn(fields[1..]);
      SameLocationsUnder(name, Entries(v, true), Entries(v, false));
      LocationsOfBoth(Under(name, Entries(v, true)), EntriesIn(fields[1..], true));
      LocationsOfBoth(Under(name, Entries(v, false)), EntriesIn(fields[1..], false));
    }
  }

  lemma SameLocationsUnder(name: string, a: seq<Entry>, b: seq<Entry>)
    requires Locations(a) == Locations(b)
    ensures Locations(Under(name, a)) == Locations(Under(name, b))
  {
    assert |a| == |Locations(a)| == |b|;
    forall i | 0 <= i < |a| ensures Locations(Under(name, a))[i] == Locations(Under(name, b))[i] {
      assert a[i].location == Locations(a)[i] == Locations(b)[i] == b[i].location;
    }
  }

  lemma LocationsOfBoth(a: seq<Entry>, b: seq<Entry>)
    ensures Locations(a + b) == Locations(a) + Locations(b)
  {}

  lemma {:induction false} NothingToBlank(v: Value)
    requires Entries(v, true) == []
    ensures Shown(v, true) == v
    decreases v, 0
  {
    if v.Node? { NothingToBlankIn(v.fields); }
  }

  lemma {:induction false} NothingToBlankIn(fields: seq<Field>)
    requires EntriesIn(fields, true) == []
    ensures ShownIn(fields, true) == fields
    decreases fields, 1
  {
    if |fields| > 0 {
      NothingToBlank(fields[0].value);
      NothingToBlankIn(fields[1..]);
    }
  }

  // ---------- form of a value in a message

  datatype Wire = Wire(json: Option<Value>, binaryInJson: seq<Entry>, arr: Option<Bytes>)

  function ToWire(v: Value): Wire {
    match v
    case Undefined => Wire(None, [], None)
    case Binary(bytes) => Wire(None, [], Some(bytes))
    case _ => Wire(Some(Text(Shown(v, true))), Entries(v, false), None)
  }

  /** Byte arrays have places inside of what is in the text. */
  predicate Readable(w: Wire) {
    w.arr.None? && w.json.Some? ==>
      && AllLead(w.json.value, w.binaryInJson)
      && forall e :: e in w.binaryInJson ==> e.value.Binary? && |e.location| > 0
  }

  function FromWire(w: Wire): Value
    requires Readable(w)
  {
    if w.arr.Some? then Binary(w.arr.value)
    else if w.json.Some? then PutAll(w.json.value, w.binaryInJson)
    else Undefined
  }

  /** Byte arrays come back to their places, and the rest is what JSON text can carry. */
  lemma RoundTrip(v: Value)
    requires WellFormed(v)
    ensures Readable(ToWire(v))
    ensures FromWire(ToWire(v)) == Text(v)
    ensures FromWire(ToWire(v)) == v <==> NothingUndefined(v)
  {
    TextIsSame(v);
    TextKeepsBlanks(v, true);
    TextKeepsPlaces(v, false);
    TextIsWellFormed(v);
    EntriesGive(Text(v), true, false);
    NotBlankedIsSame(Text(v));
    if v.Node? {
      forall e | e in Entries(v, false) ensures e.value.Binary? && |e.location| > 0 {
        assert Lists(Entries(v, false), e.location, e.value);
        EntriesAreExact(v, e.location, e.value);
      }
    }
  }

  /** An object with an undefined field comes back without it. */
  lemma UndefinedIsLost(name: string)
    ensures var v := Node(false, [Field(name, Undefined)]);
            && WellFormed(v) && Readable(ToWire(v))
            && FromWire(ToWire(v)) == Node(false, []) != v
  {
    var v := Node(false, [Field(name, Undefined)]);
    RoundTrip(v);
    assert v.fields[1..] == [] && TextIn(false, v.fields) == [] + TextIn(false, []);
  }

  /** Text has no byte arrays in it. */
  lemma {:induction false} TextHasNoBinaries(v: Value)
    ensures Entries(Text(Shown(v, true)), false) == []
    decreases v, 0
  {
    TextKeepsPlaces(Shown(v, true), false);
    if v.Node? { ShownHaveNoBinaries(v.fields); }
  }

  lemma {:induction false} ShownHaveNoBinaries(fields: seq<Field>)
    ensures EntriesIn(ShownIn(fields, true), false) == []
    decreases fields, 1
  {
    if |fields| > 0 {
      var v := fields[0].value;
      TextHasNoBinaries(v);
      TextKeepsPlaces(Shown(v, true), false);
      ShownHaveNoBinaries(fields[1..]);
      assert ShownIn(fields, true)[1..] == ShownIn(fields[1..], true);
    }
  }

  /** Blanking changes nothing on the way to a location. */
  lemma {:induction false} ShownAt(v: Value, location: Location)
    requires Leads(v, location)
    ensures Leads(Shown(v, true), location)
    ensures At(Shown(v, true), location) == Shown(At(v, location), true)
    decreases |location|
  {
    if |location| > 0 {
      var i := Find(v.fields, location[0]);
      SameNames(v.fields, location[0]);
      ShownAtIndex(v.fields, i);
      ShownAt(v.fields[i].value, location[1..]);
    }
  }

  lemma {:induction false} SameNames(fields: seq<Field>, name: string)
    ensures Find(ShownIn(fields, true), name) == Find(fields, name)
  {
    if |fields| > 0 && fields[0].name != name {
      SameNames(fields[1..], name);
      assert ShownIn(fields, true)[1..] == ShownIn(fields[1..], true);
    }
  }

  lemma {:induction false} ShownAtIndex(fields: seq<Field>, i: nat)
    requires i < |fields|
    ensures ShownIn(fields, true)[i].value == Shown(fields[i].value, true)
  {
    if i > 0 {
      ShownAtIndex(fields[1..], i - 1);
      assert ShownIn(fields, true)[1..] == ShownIn(fields[1..], true);
    }
  }

  lemma {:induction false} ShownIsWellFormed(v: Value)
    requires WellFormed(v)
    ensures WellFormed(Shown(v, true))
    decreases v
  {
    if v.Node? {
      forall i | 0 <= i < |v.fields| ensures WellFormed(ShownIn(v.fields, true)[i].value) {
        ShownAtIndex(v.fields, i);
        ShownIsWellFormed(v.fields[i].value);
      }
    }
  }

  /** What is sent: no byte array is in the text, and all those that are listed have nulls at their places. */
  ghost predicate IsBlanked(w: Wire) {
    w.json.Some? ==>
      && (forall location :: Leads(w.json.value, location) ==> !At(w.json.value, location).Binary?)
      && (forall e :: e in w.binaryInJson ==>
            e.value.Binary? && Leads(w.json.value, e.location) && At(w.json.value, e.location) == Null)
  }

  lemma WireIsBlanked(v: Value)
    requires WellFormed(v)
    ensures IsBlanked(ToWire(v))
  {
    var w := ToWire(v);
    if w.json.Some? {
      var json, text := w.json.value, Text(v);
      TextKeepsBlanks(v, true);
      TextKeepsPlaces(v, false);
      TextIsWellFormed(v);
      ShownIsWellFormed(text);
      TextHasNoBinaries(v);
      forall location | Leads(json, location) ensures !At(json, location).Binary? {
        EntriesAreExact(json, location, At(json, location));
      }
      forall e | e in w.binaryInJson
        ensures e.value.Binary? && Leads(json, e.location) && At(json, e.location) == Null
      {
        assert Lists(Entries(text, false), e.location, e.value);
        EntriesAreExact(text, e.location, e.value);
        ShownAt(text, e.location);
      }
    }
  }
}
