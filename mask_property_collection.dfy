/** `MaskPropertyCollection`: a list of MaskProperty records that also owns
    a private dictionary from lower-cased property names to options. The
    string overloads of Add fill only the dictionary, TryGetProperty reads
    only the dictionary, and the inherited list is untouched by both. */
module PropertyCollections {
  import opened Wrappers
  import opened Text
  import opened Options
  import opened MaskProperties

  /** The dictionary lookup of TryGetProperty: the key is the lower-cased
      name. */
  function Lookup(properties: map<string, MaskOptions>, propertyName: string): Option<MaskOptions>
  {
    if Lower(propertyName) in properties then Some(properties[Lower(propertyName)]) else None
  }

  /** The dictionary after adding each name in turn, lower-cased, with the
      given options; `Dictionary.Add` throws on the first key already
      present. */
  function AddAll(properties: map<string, MaskOptions>, names: seq<string>, options: MaskOptions): Result<map<string, MaskOptions>>
    decreases |names|
  {
    if names == [] then Success(properties)
    else if Lower(names[0]) in properties then Failure(DuplicateKey(Lower(names[0])))
    else AddAll(properties[Lower(names[0]) := options], names[1..], options)
  }

  /** The keys that adding `names` creates. */
  function Keys(names: seq<string>): set<string>
  {
    set i | 0 <= i < |names| :: Lower(names[i])
  }

  /** No two names are equal ignoring case. */
  predicate DistinctIgnoringCase(names: seq<string>)
  {
    forall i, j :: 0 <= i < j < |names| ==> !EqualsIgnoreCase(names[i], names[j])
  }

  /** Adding a list of names succeeds exactly when no name clashes with a
      present key or, ignoring case, with another name of the list; then
      every new key maps to the options and the old keys keep theirs. */
  lemma {:induction false} AddAllOutcome(properties: map<string, MaskOptions>, names: seq<string>, options: MaskOptions)
    ensures AddAll(properties, names, options).Success? <==> Fresh(properties, names) && DistinctIgnoringCase(names)
    ensures AddAll(properties, names, options).Success? ==>
      AddAll(properties, names, options).value == properties + map k | k in Keys(names) :: options
    decreases |names|
  {
    if names != [] {
      var key, rest := Lower(names[0]), names[1..];
      var next := properties[key := options];
      AddAllOutcome(next, rest, options);
      if key !in properties {
        FirstAdded(properties, names, options);
        AddedMapCons(properties, names, options);
      }
    }
  }

  /** No name of the list is a key already. */
  predicate Fresh(properties: map<string, MaskOptions>, names: seq<string>)
  {
    forall i :: 0 <= i < |names| ==> Lower(names[i]) !in properties
  }

  lemma KeysCons(names: seq<string>)
    requires names != []
    ensures Keys(names) == {Lower(names[0])} + Keys(names[1..])
  {
    var rest := names[1..];
    forall k | k in Keys(names) ensures k in {Lower(names[0])} + Keys(rest) {
      var i :| 0 <= i < |names| && Lower(names[i]) == k;
      if i > 0 { assert rest[i - 1] == names[i]; }
    }
    forall k | k in Keys(rest) ensures k in Keys(names) {
      var i :| 0 <= i < |rest| && Lower(rest[i]) == k;
      assert names[i + 1] == rest[i];
    }
  }

  /** Adding the first name and then the rest gives the same dictionary as
      adding them all at once. */
  lemma AddedMapCons(properties: map<string, MaskOptions>, names: seq<string>, options: MaskOptions)
    requires names != []
    ensures properties[Lower(names[0]) := options] + (map k | k in Keys(names[1..]) :: options) ==
      properties + map k | k in Keys(names) :: options
  {
    KeysCons(names);
    var l := properties[Lower(names[0]) := options] + (map k | k in Keys(names[1..]) :: options);
    var r := properties + map k | k in Keys(names) :: options;
    assert l.Keys == r.Keys;
    forall k | k in l ensures l[k] == r[k] {
    }
  }

  /** Once the first name is added, the rest may be added exactly when the
      whole list could be. */
  lemma FirstAdded(properties: map<string, MaskOptions>, names: seq<string>, options: MaskOptions)
    requires names != [] && Lower(names[0]) !in properties
    ensures Fresh(properties[Lower(names[0]) := options], names[1..]) && DistinctIgnoringCase(names[1..])
      <==> Fresh(properties, names) && DistinctIgnoringCase(names)
  {
    var key, rest := Lower(names[0]), names[1..];
    var next := properties[key := options];
    if Fresh(next, rest) && DistinctIgnoringCase(rest) {
      forall i, j | 0 <= i < j < |names| ensures !EqualsIgnoreCase(names[i], names[j]) {
        if i == 0 {
          assert Lower(rest[j - 1]) !in next;
        } else {
          assert names[i] == rest[i - 1] && names[j] == rest[j - 1];
        }
      }
      forall i | 0 <= i < |names| ensures Lower(names[i]) !in properties {
        if i > 0 { assert Lower(rest[i - 1]) !in next; }
      }
    }
    if Fresh(properties, names) && DistinctIgnoringCase(names) {
      forall i | 0 <= i < |rest| ensures Lower(rest[i]) !in next {
        assert rest[i] == names[i + 1];
        assert !EqualsIgnoreCase(names[0], names[i + 1]);
      }
      forall i, j | 0 <= i < j < |rest| ensures !EqualsIgnoreCase(rest[i], rest[j]) {
        assert rest[i] == names[i + 1] && rest[j] == names[j + 1];
      }
    }
  }

  class MaskPropertyCollection {
    /** The inherited `List<MaskProperty>`. */
    var items: seq<MaskProperty>
    /** The private `Dictionary<string, MaskOptions>`. */
    var properties: map<string, MaskOptions>

    constructor()
      ensures items == [] && properties == map[]
    {
      items := [];
      properties := map[];
    }

    /** The inherited `List.Add(MaskProperty)`: the dictionary does not see
        it. */
    method AddItem(p: MaskProperty)
      modifies this
      ensures items == old(items) + [p]
      ensures properties == old(properties)
    {
      items := items + [p];
    }

    /** `Add(propertyName, maskOptions)`: maps the lower-cased name to the
        options; a key already present throws and changes nothing. */
    method AddWithOptions(propertyName: string, maskOptions: MaskOptions) returns (err: Option<Error>)
      modifies this
      ensures AddAll(old(properties), [propertyName], maskOptions) ==
        (if err.None? then Success(properties) else Failure(err.value))
      ensures err.Some? ==> properties == old(properties)
      ensures items == old(items)
    {
      var key := Lower(propertyName);
      if key in properties {
        return Some(DuplicateKey(key));
      }
      properties := properties[key := maskOptions];
      return None;
    }

    /** `Add(propertyName)`: the same with the shared default options. */
    method Add(propertyName: string) returns (err: Option<Error>)
      modifies this
      ensures AddAll(old(properties), [propertyName], Default) ==
        (if err.None? then Success(properties) else Failure(err.value))
      ensures err.Some? ==> properties == old(properties)
      ensures items == old(items)
    {
      err := AddWithOptions(propertyName, Default);
    }

    /** `TryGetProperty(propertyName, out options)`: None stands for false. */
    function TryGetProperty(propertyName: string): (r: Option<MaskOptions>)
      reads this
      ensures r.Some? <==> Lower(propertyName) in properties
      ensures r.Some? ==> r.value == properties[Lower(propertyName)]
    {
      Lookup(properties, propertyName)
    }

    /** `MaskPropertyCollection.From(names)`: a new collection with each
        name added, in order, with the default options. */
    static method From(names: seq<string>) returns (r: Result<MaskPropertyCollection>)
      ensures r.Success? ==> fresh(r.value) && r.value.items == []
      ensures r.Success? ==> AddAll(map[], names, Default) == Success(r.value.properties)
      ensures r.Failure? ==> AddAll(map[], names, Default) == Failure(r.error)
    {
      var collection := new MaskPropertyCollection();
      var i := 0;
      while i < |names|
        invariant 0 <= i <= |names|
        invariant collection.items == []
        invariant AddAll(map[], names, Default) == AddAll(collection.properties, names[i..], Default)
      {
        assert names[i..][0] == names[i] && names[i..][1..] == names[i + 1..];
        var err := collection.AddWithOptions(names[i], Default);
        if err.Some? {
          return Failure(err.value);
        }
        i := i + 1;
      }
      return Success(collection);
    }
  }

  /** Lookup ignores case: names equal ignoring case find the same entry. */
  lemma LookupIgnoresCase(properties: map<string, MaskOptions>, a: string, b: string)
    requires EqualsIgnoreCase(a, b)
    ensures Lookup(properties, a) == Lookup(properties, b)
  {
  }

  /** After adding a new name, looking up any spelling of it finds the
      given options, and every other lookup is as before. */
  lemma LookupAfterAdd(properties: map<string, MaskOptions>, name: string, options: MaskOptions, query: string)
    requires AddAll(properties, [name], options).Success?
    ensures Lookup(AddAll(properties, [name], options).value, query) ==
      if EqualsIgnoreCase(query, name) then Some(options) else Lookup(properties, query)
  {
    assert [name][1..] == [];
  }
}
