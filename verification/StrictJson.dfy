/** Reading JSON into values while refusing objects that repeat a name. */
module StrictJson {
  import opened Wrappers
  import opened Sorting

  /** A parsed document as the reader meets it: objects are lists of members, in order. */
  datatype Raw =
    | RNull
    | RBool(b: bool)
    | RInt(i: int)
    | RFloat(r: real)
    | RString(s: string)
    | RArray(items: seq<Raw>)
    | RObject(members: seq<Member>)

  datatype Member = Member(key: string, value: Raw)

  datatype Value =
    | Null
    | Bool(b: bool)
    | Int(i: int)
    | Float(r: real)
    | String(s: string)
    | Array(items: seq<Value>)
    | Object(fields: map<string, Value>)

  datatype Error = DuplicateKey

  /** No object of the document, at any depth, has two members with one name. */
  ghost predicate Unique(raw: Raw) {
    match raw
    case RArray(items) => forall i | 0 <= i < |items| :: Unique(items[i])
    case RObject(members) =>
      && (forall i, j | 0 <= i < j < |members| :: members[i].key != members[j].key)
      && (forall i | 0 <= i < |members| :: Unique(members[i].value))
    case _ => true
  }

  /** The ordinary reading: of members with one name, the last counts. */
  function LastWins(raw: Raw): Value
    decreases raw
  {
    match raw
    case RNull => Null
    case RBool(b) => Bool(b)
    case RInt(i) => Int(i)
    case RFloat(r) => Float(r)
    case RString(s) => String(s)
    case RArray(items) => Array(LastWinsItems(items))
    case RObject(members) => Object(LastWinsMembers(members))
  }

  function LastWinsItems(items: seq<Raw>): seq<Value>
    decreases items
  {
    if items == [] then []
    else LastWinsItems(items[..|items| - 1]) + [LastWins(items[|items| - 1])]
  }

  function LastWinsMembers(members: seq<Member>): map<string, Value>
    decreases members
  {
    if members == [] then map[]
    else
      var last := members[|members| - 1];
      LastWinsMembers(members[..|members| - 1])[last.key := LastWins(last.value)]
  }

  /** Succeeds exactly on documents without repeated names, and then reads them in the ordinary way. */
  method FromSlice(raw: Raw) returns (r: Result<Value, Error>)
    ensures r.Ok? <==> Unique(raw)
    ensures r.Ok? ==> r.value == LastWins(raw)
    decreases raw
  {
    match raw
    case RNull => r := Ok(Null);
    case RBool(b) => r := Ok(Bool(b));
    case RInt(i) => r := Ok(Int(i));
    case RFloat(x) => r := Ok(Float(x));
    case RString(s) => r := Ok(String(s));
    case RArray(items) =>
      var values := VisitSeq(raw, items);
      if values.Err? {
        return Err(values.error);
      }
      r := Ok(Array(values.value));
    case RObject(members) =>
      var values := VisitMap(raw, members);
      if values.Err? {
        return Err(values.error);
      }
      r := Ok(Object(values.value));
  }

  method VisitSeq(ghost raw: Raw, items: seq<Raw>) returns (r: Result<seq<Value>, Error>)
    requires raw == RArray(items)
    ensures r.Ok? <==> Unique(raw)
    ensures r.Ok? ==> r.value == LastWinsItems(items)
    decreases raw, 0
  {
    var values: seq<Value> := [];
    for i := 0 to |items|
      invariant forall j | 0 <= j < i :: Unique(items[j])
      invariant values == LastWinsItems(items[..i])
    {
      var item := FromSlice(items[i]);
      if item.Err? {
        return Err(item.error);
      }
      assert items[..i + 1][..i] == items[..i];
      values := values + [item.value];
    }
    assert items[..|items|] == items;
    r := Ok(values);
  }

  method VisitMap(ghost raw: Raw, members: seq<Member>) returns (r: Result<map<string, Value>, Error>)
    requires raw == RObject(members)
    ensures r.Ok? <==> Unique(raw)
    ensures r.Ok? ==> r.value == LastWinsMembers(members)
    decreases raw, 0
  {
    var values: map<string, Value> := map[];
    for i := 0 to |members|
      invariant forall j, k | 0 <= j < k < i :: members[j].key != members[k].key
      invariant forall j | 0 <= j < i :: Unique(members[j].value)
      invariant values == LastWinsMembers(members[..i])
      invariant forall key :: key in values <==> exists j :: 0 <= j < i && members[j].key == key
    {
      var value := FromSlice(members[i].value);
      if value.Err? {
        return Err(value.error);
      }
      var key := members[i].key;
      if key in values {
        return Err(DuplicateKey);
      }
      assert members[..i + 1][..i] == members[..i];
      values := values[key := value.value];
    }
    assert members[..|members|] == members;
    r := Ok(values);
  }

  function Names(members: seq<Member>): seq<string>
    decreases members
  {
    if members == [] then [] else Names(members[..|members| - 1]) + [members[|members| - 1].key]
  }

  lemma {:induction false} NamesAt(members: seq<Member>, i: nat)
    requires i < |members|
    ensures |Names(members)| == |members| && Names(members)[i] == members[i].key
  {
    if |members| > 1 {
      NamesAt(members[..|members| - 1], if i < |members| - 1 then i else 0);
    }
  }

  lemma {:induction false} FieldsAreNames(members: seq<Member>)
    ensures LastWinsMembers(members).Keys == set name | name in Names(members)
  {
    if members != [] {
      FieldsAreNames(members[..|members| - 1]);
    }
  }

  /**
   * Why the strict reader exists: when everything below an object reads, the ordinary reader keeps all of the
   * object's members exactly when the strict one accepts it.
   */
  lemma OrdinaryReaderDropsMembers(members: seq<Member>)
    requires forall i | 0 <= i < |members| :: Unique(members[i].value)
    ensures |LastWinsMembers(members)| <= |members|
    ensures |LastWinsMembers(members)| == |members| <==> Unique(RObject(members))
  {
    var names := Names(members);
    forall i | 0 <= i < |members| ensures |names| == |members| && names[i] == members[i].key {
      NamesAt(members, i);
    }
    DistinctCount(names);
    FieldsAreNames(members);
    assert |LastWinsMembers(members).Keys| == |LastWinsMembers(members)|;
    NoDupNames(members, names);
  }

  lemma NoDupNames(members: seq<Member>, names: seq<string>)
    requires |names| == |members| && forall i | 0 <= i < |members| :: names[i] == members[i].key
    requires forall i | 0 <= i < |members| :: Unique(members[i].value)
    ensures NoDup(names) <==> Unique(RObject(members))
  {
  }
}
