/** Reading and writing a value as JSON through a list of keys, each with an accessor to one of its fields. */
module JsonPolicies {
  import opened Wrappers

  datatype Json =
    | JsonNull
    | JsonBoolean(truth: bool)
    | JsonNumber(number: int)
    | JsonString(text: string)
    | JsonArray(items: seq<Json>)
    | JsonObject(members: map<string, Json>)

  /** The types of attribute that the policies are made for. */
  datatype Kind = UnsignedKind | TextKind

  datatype Attribute = Unsigned(value: uint32) | Text(text: string) {
    function Kind(): Kind { if Unsigned? then UnsignedKind else TextKind }
  }

  datatype Failure = NotAnObject | KeyNotFound | WrongType

  /** A key and an accessor. The accessor is a reference to a field, so it reads and writes. */
  datatype Policy<!Data> = Policy(key: string, kind: Kind, get: Data -> Attribute, put: (Data, Attribute) -> Data)

  // ---- One operation ----

  function ToJson(a: Attribute): Json {
    match a
    case Unsigned(value) => JsonNumber(value as int)
    case Text(text) => JsonString(text)
  }

  /** get_to: an unsigned int takes numbers modulo two to the power 32, and booleans. */
  function FromJson(kind: Kind, json: Json): (a: Result<Attribute, Failure>)
    ensures a.Ok? ==> a.value.Kind() == kind
  {
    match (kind, json)
    case (UnsignedKind, JsonNumber(n)) => Ok(Unsigned((n % 0x1_0000_0000) as uint32))
    case (UnsignedKind, JsonBoolean(b)) => Ok(Unsigned(if b then 1 else 0))
    case (TextKind, JsonString(s)) => Ok(Text(s))
    case (_, _) => Err(WrongType)
  }

  lemma FromJsonInvertsToJson(kind: Kind, a: Attribute)
    ensures FromJson(kind, ToJson(a)) == if a.Kind() == kind then Ok(a) else Err(WrongType)
  {
  }

  function Write(key: string, a: Attribute, json: Json): Result<Json, Failure> {
    match json
    case JsonNull => Ok(JsonObject(map[key := ToJson(a)]))
    case JsonObject(members) => Ok(JsonObject(members[key := ToJson(a)]))
    case _ => Err(NotAnObject)
  }

  function Read(kind: Kind, key: string, json: Json): (a: Result<Attribute, Failure>)
    ensures a.Ok? ==> a.value.Kind() == kind
  {
    if !json.JsonObject? then Err(NotAnObject)
    else if key !in json.members then Err(KeyNotFound)
    else FromJson(kind, json.members[key])
  }

  // ---- The whole list ----

  function SerializeAll<Data>(policies: seq<Policy<Data>>, data: Data, json: Json): (Json, Option<Failure>)
    decreases |policies|
  {
    if policies == [] then (json, None)
    else match Write(policies[0].key, policies[0].get(data), json)
      case Ok(written) => SerializeAll(policies[1..], data, written)
      case Err(failure) => (json, Some(failure))
  }

  function DeserializeAll<Data>(policies: seq<Policy<Data>>, data: Data, json: Json): (Data, Option<Failure>)
    decreases |policies|
  {
    if policies == [] then (data, None)
    else match Read(policies[0].kind, policies[0].key, json)
      case Ok(a) => DeserializeAll(policies[1..], policies[0].put(data, a), json)
      case Err(failure) => (data, Some(failure))
  }

  class ParsingPolicy<!Data> {
    var policies: seq<Policy<Data>>

    constructor ()
      ensures policies == []
    {
      policies := [];
    }

    method AddPolicy(key: string, kind: Kind, get: Data -> Attribute, put: (Data, Attribute) -> Data)
      modifies this
      ensures policies == old(policies) + [Policy(key, kind, get, put)]
    {
      policies := policies + [Policy(key, kind, get, put)];
    }

    /** A failure is an exception: what was written before it stays. */
    method ApplyPoliciesOnSerialization(data: Data, json: Json) returns (result: Json, failure: Option<Failure>)
      ensures (result, failure) == SerializeAll(policies, data, json)
    {
      result, failure := json, None;
      for i := 0 to |policies|
        invariant failure == None
        invariant SerializeAll(policies[i..], data, result) == SerializeAll(policies, data, json)
      {
        var written := Write(policies[i].key, policies[i].get(data), result);
        assert policies[i..][1..] == policies[i + 1..];
        match written {
          case Ok(value) => result := value;
          case Err(error) => return result, Some(error);
        }
      }
    }

    method ApplyPoliciesOnDeserialization(data: Data, json: Json) returns (result: Data, failure: Option<Failure>)
      ensures (result, failure) == DeserializeAll(policies, data, json)
    {
      result, failure := data, None;
      for i := 0 to |policies|
        invariant failure == None
        invariant DeserializeAll(policies[i..], result, json) == DeserializeAll(policies, data, json)
      {
        var read := Read(policies[i].kind, policies[i].key, json);
        assert policies[i..][1..] == policies[i + 1..];
        match read {
          case Ok(attribute) => result := policies[i].put(result, attribute);
          case Err(error) => return result, Some(error);
        }
      }
    }
  }

  // ---- What accessors are ----

  /** The accessor refers to one field of its kind. */
  ghost predicate Lawful<Data(!new)>(p: Policy<Data>) {
    && (forall d :: p.get(d).Kind() == p.kind)
    && (forall d, a: Attribute :: a.Kind() == p.kind ==> p.get(p.put(d, a)) == a)
  }

  /** Writing through the policy does not change what the view sees. */
  ghost predicate Keeps<Data(!new), X>(p: Policy<Data>, view: Data -> X) {
    forall d, a: Attribute :: a.Kind() == p.kind ==> view(p.put(d, a)) == view(d)
  }

  /** Different policies refer to different fields. */
  ghost predicate Independent<Data(!new)>(policies: seq<Policy<Data>>) {
    && (forall i :: 0 <= i < |policies| ==> Lawful(policies[i]))
    && (forall i, j :: 0 <= i < |policies| && 0 <= j < |policies| && i != j ==> Keeps(policies[j], policies[i].get))
  }

  // ---- What a written document holds ----

  /** What the last policy with this key writes. */
  function Printed<Data>(policies: seq<Policy<Data>>, data: Data, key: string): Option<Attribute>
    decreases |policies|
  {
    if policies == [] then None
    else
      var later := Printed(policies[1..], data, key);
      if later.Some? then later
      else if policies[0].key == key then Some(policies[0].get(data)) else None
  }

  function Member(json: Json, key: string): Option<Json> {
    if json.JsonObject? && key in json.members then Some(json.members[key]) else None
  }

  lemma {:induction false} SerializationWritesEveryKey<Data>(policies: seq<Policy<Data>>, data: Data, json: Json,
                                                             key: string)
    requires json.JsonNull? || json.JsonObject?
    ensures var (document, failure) := SerializeAll(policies, data, json);
            && failure == None
            && (document.JsonObject? || policies == [])
            && Member(document, key) == match Printed(policies, data, key)
                                        case Some(a) => Some(ToJson(a))
                                        case None => Member(json, key)
    decreases |policies|
  {
    if policies == [] {
    } else {
      var written := Write(policies[0].key, policies[0].get(data), json).value;
      SerializationWritesEveryKey(policies[1..], data, written, key);
    }
  }

  lemma {:induction false} PrintedComesFromSome<Data>(policies: seq<Policy<Data>>, data: Data, key: string)
    requires Printed(policies, data, key).Some?
    ensures exists j :: 0 <= j < |policies| && policies[j].key == key
              && Printed(policies, data, key).value == policies[j].get(data)
    decreases |policies|
  {
    var rest := policies[1..];
    if Printed(rest, data, key).Some? {
      PrintedComesFromSome(rest, data, key);
      var j :| 0 <= j < |rest| && rest[j].key == key && Printed(rest, data, key).value == rest[j].get(data);
      assert policies[j + 1] == rest[j];
    }
  }

  lemma {:induction false} PrintedBySome<Data>(policies: seq<Policy<Data>>, data: Data, i: nat)
    requires i < |policies|
    ensures Printed(policies, data, policies[i].key).Some?
    ensures exists j :: i <= j < |policies| && policies[j].key == policies[i].key
              && Printed(policies, data, policies[i].key).value == policies[j].get(data)
    decreases |policies|
  {
    var key, rest := policies[i].key, policies[1..];
    if i > 0 {
      PrintedBySome(rest, data, i - 1);
      var j :| i - 1 <= j < |rest| && rest[j].key == key && Printed(rest, data, key).value == rest[j].get(data);
      assert policies[j + 1] == rest[j];
    } else if Printed(rest, data, key).Some? {
      PrintedComesFromSome(rest, data, key);
      var j :| 0 <= j < |rest| && rest[j].key == key && Printed(rest, data, key).value == rest[j].get(data);
      assert policies[j + 1] == rest[j];
    }
  }

  // ---- What reading a document does ----

  /** What no accessor refers to is left alone, also by a reading that fails. */
  lemma {:induction false} DeserializationLeavesTheRest<Data(!new), X>(policies: seq<Policy<Data>>, data: Data,
                                                                       json: Json, view: Data -> X)
    requires forall i :: 0 <= i < |policies| ==> Keeps(policies[i], view)
    ensures view(DeserializeAll(policies, data, json).0) == view(data)
    decreases |policies|
  {
    if policies == [] {
    } else {
      var read := Read(policies[0].kind, policies[0].key, json);
      if read.Ok? {
        assert Keeps(policies[0], view);
        DeserializationLeavesTheRest(policies[1..], policies[0].put(data, read.value), json, view);
      }
    }
  }

  ghost predicate AllReadable<Data>(policies: seq<Policy<Data>>, json: Json) {
    forall i :: 0 <= i < |policies| ==> Read(policies[i].kind, policies[i].key, json).Ok?
  }

  /** Reading succeeds exactly when every key can be read, and then every field holds what its key holds. */
  lemma {:induction false} DeserializationReadsEveryKey<Data(!new)>(policies: seq<Policy<Data>>, data: Data, json: Json)
    requires Independent(policies)
    ensures DeserializeAll(policies, data, json).1 == None <==> AllReadable(policies, json)
    ensures AllReadable(policies, json) ==>
              forall i :: 0 <= i < |policies| ==>
                Read(policies[i].kind, policies[i].key, json)
                == Ok(policies[i].get(DeserializeAll(policies, data, json).0))
    decreases |policies|
  {
    if policies == [] {
    } else {
      var read := Read(policies[0].kind, policies[0].key, json);
      var rest := policies[1..];
      assert AllReadable(policies, json) <==> read.Ok? && AllReadable(rest, json);
      if read.Ok? {
        var next := policies[0].put(data, read.value);
        DeserializationReadsEveryKey(rest, next, json);
        assert Lawful(policies[0]);
        DeserializationLeavesTheRest(rest, next, json, policies[0].get);
      }
    }
  }

  /** Otherwise the first key that cannot be read is reported, and the fields before it have been written. */
  lemma {:induction false} DeserializationStopsAtFirstFailure<Data>(policies: seq<Policy<Data>>, data: Data, json: Json,
                                                                    n: nat)
    requires n < |policies| && AllReadable(policies[..n], json)
    requires Read(policies[n].kind, policies[n].key, json).Err?
    ensures DeserializeAll(policies, data, json)
         == (DeserializeAll(policies[..n], data, json).0, Some(Read(policies[n].kind, policies[n].key, json).error))
    decreases n
  {
    if n == 0 {
    } else {
      assert policies[..n][0] == policies[0] && policies[..n][1..] == policies[1..][..n - 1];
      var read := Read(policies[0].kind, policies[0].key, json);
      forall i | 0 <= i < n - 1 ensures Read(policies[1..][i].kind, policies[1..][i].key, json).Ok? {
        assert policies[1..][i] == policies[..n][i + 1];
      }
      DeserializationStopsAtFirstFailure(policies[1..], policies[0].put(data, read.value), json, n - 1);
    }
  }

  // ---- Round trip ----

  ghost predicate SharedKeysAgree<Data>(policies: seq<Policy<Data>>, data: Data) {
    forall i, j :: 0 <= i < |policies| && 0 <= j < |policies| && policies[i].key == policies[j].key ==>
      policies[i].get(data) == policies[j].get(data)
  }

  ghost predicate Restored<Data>(policies: seq<Policy<Data>>, data: Data, result: Data) {
    forall i :: 0 <= i < |policies| ==> policies[i].get(result) == policies[i].get(data)
  }

  lemma ReadsBackWhatWasPrinted<Data(!new)>(policies: seq<Policy<Data>>, data: Data, json: Json, i: nat)
    requires i < |policies| && Lawful(policies[i]) && (json.JsonNull? || json.JsonObject?)
    ensures var p := policies[i];
            var printed := Printed(policies, data, p.key);
            var document := SerializeAll(policies, data, json).0;
            && printed.Some?
            && (Read(p.kind, p.key, document) == Ok(p.get(data)) <==> printed.value == p.get(data))
  {
    var p := policies[i];
    PrintedBySome(policies, data, i);
    SerializationWritesEveryKey(policies, data, json, p.key);
    FromJsonInvertsToJson(p.kind, Printed(policies, data, p.key).value);
  }

  /** Writing a value and reading it into another one brings every field back if and only if fields that share a
      key have the same value. */
  lemma RoundTripIffSharedKeysAgree<Data(!new)>(policies: seq<Policy<Data>>, data: Data, other: Data, json: Json)
    requires Independent(policies) && (json.JsonNull? || json.JsonObject?)
    ensures var (document, failure) := SerializeAll(policies, data, json);
            var (result, refusal) := DeserializeAll(policies, other, document);
            && failure == None
            && (refusal == None && Restored(policies, data, result) <==> SharedKeysAgree(policies, data))
  {
    var document := SerializeAll(policies, data, json).0;
    var result := DeserializeAll(policies, other, document).0;
    SerializationWritesEveryKey(policies, data, json, "");
    forall i | 0 <= i < |policies| ensures
      var printed := Printed(policies, data, policies[i].key);
      && printed.Some?
      && (Read(policies[i].kind, policies[i].key, document) == Ok(policies[i].get(data))
          <==> printed.value == policies[i].get(data))
    {
      ReadsBackWhatWasPrinted(policies, data, json, i);
    }
    DeserializationReadsEveryKey(policies, other, document);
    if SharedKeysAgree(policies, data) {
      forall i | 0 <= i < |policies| ensures Printed(policies, data, policies[i].key).value == policies[i].get(data) {
        PrintedBySome(policies, data, i);
      }
    }
  }

  ghost predicate DistinctKeys<Data>(policies: seq<Policy<Data>>) {
    forall i, j :: 0 <= i < j < |policies| ==> policies[i].key != policies[j].key
  }

  /** In particular with distinct keys, and what no accessor refers to stays as it was in the value read into. */
  lemma JsonRoundTrip<Data(!new), X>(policies: seq<Policy<Data>>, data: Data, other: Data, json: Json, rest: Data -> X)
    requires Independent(policies) && DistinctKeys(policies) && (json.JsonNull? || json.JsonObject?)
    requires forall i :: 0 <= i < |policies| ==> Keeps(policies[i], rest)
    ensures var (document, failure) := SerializeAll(policies, data, json);
            var (result, refusal) := DeserializeAll(policies, other, document);
            && failure == None && refusal == None
            && Restored(policies, data, result)
            && rest(result) == rest(other)
  {
    RoundTripIffSharedKeysAgree(policies, data, other, json);
    DeserializationLeavesTheRest(policies, other, SerializeAll(policies, data, json).0, rest);
  }

  /** A number of 32 bits is read as it is, any other as the one it equals modulo two to the power 32. */
  lemma NumbersAreReadModulo(n: int, v: uint32)
    ensures FromJson(UnsignedKind, JsonNumber(n)) == Ok(Unsigned(v))
            <==> exists k: int :: n == k * 0x1_0000_0000 + v as int
    ensures FromJson(UnsignedKind, JsonBoolean(true)) == Ok(Unsigned(1))
    ensures FromJson(UnsignedKind, JsonBoolean(false)) == Ok(Unsigned(0))
  {
    assert n == (n / 0x1_0000_0000) * 0x1_0000_0000 + n % 0x1_0000_0000;
  }

  /** What is written for a key that only one policy has is that policy's attribute. */
  lemma OnlyPolicyIsPrinted<Data>(policies: seq<Policy<Data>>, data: Data, i: nat)
    requires i < |policies| && DistinctKeys(policies)
    ensures Printed(policies, data, policies[i].key) == Some(policies[i].get(data))
  {
    PrintedBySome(policies, data, i);
  }

  lemma {:induction false} OtherKeysAreNotPrinted<Data>(policies: seq<Policy<Data>>, data: Data, key: string)
    requires forall i :: 0 <= i < |policies| ==> policies[i].key != key
    ensures Printed(policies, data, key) == None
    decreases |policies|
  {
    if policies == [] {
    } else {
      OtherKeysAreNotPrinted(policies[1..], data, key);
    }
  }
}
