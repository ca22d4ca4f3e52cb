/** The eight policies that read and write the server's configuration. */
module ServerConfigurationPolicies {
  import opened JsonPolicies
  import opened Wrappers

  datatype FileOpenPolicy = DefaultOpen | AlwaysOpen | OpenAndClose
  datatype BufferingPolicy = DefaultBuffer | NoBuffer
  datatype FileRotationPolicy = DefaultRotation | NoRotation | BoundedRotation

  datatype LoggerConfiguration = LoggerConfiguration(fileAlwaysOpenPolicy: FileOpenPolicy,
                                                     bufferingPolicy: BufferingPolicy,
                                                     fileRotationPolicy: FileRotationPolicy,
                                                     sharedLog: bool, logFilePath: string, maxFileSize: int)

  datatype ServerConfiguration = ServerConfiguration(configurationFilePath: string, port: uint32,
                                                     requestHandlerAmount: uint32, applicationHandlerAmount: uint32,
                                                     responseHandlerAmount: uint32, requestsQueueSize: uint32,
                                                     sslCertFileName: string, sslKeyFileName: string,
                                                     loggerConfiguration: LoggerConfiguration)

  type Config = ServerConfiguration

  function UnsignedPolicy(key: string, get: Config -> uint32, put: (Config, uint32) -> Config): Policy<Config> {
    Policy(key, UnsignedKind, (c: Config) => Unsigned(get(c)),
           (c: Config, a: Attribute) => if a.Unsigned? then put(c, a.value) else c)
  }

  function TextPolicy(key: string, get: Config -> string, put: (Config, string) -> Config): Policy<Config> {
    Policy(key, TextKind, (c: Config) => Text(get(c)),
           (c: Config, a: Attribute) => if a.Text? then put(c, a.text) else c)
  }

  function Port(): Policy<Config> {
    UnsignedPolicy("port", (c: Config) => c.port,
                   (c: Config, v: uint32) => c.(port := v))
  }

  function RequestHandlerAmount(): Policy<Config> {
    UnsignedPolicy("requestHandlerAmount", (c: Config) => c.requestHandlerAmount,
                   (c: Config, v: uint32) => c.(requestHandlerAmount := v))
  }

  function ApplicationHandlerAmount(): Policy<Config> {
    UnsignedPolicy("applicationHandlerAmount", (c: Config) => c.applicationHandlerAmount,
                   (c: Config, v: uint32) => c.(applicationHandlerAmount := v))
  }

  function ResponseHandlerAmount(): Policy<Config> {
    UnsignedPolicy("responseHandlerAmount", (c: Config) => c.responseHandlerAmount,
                   (c: Config, v: uint32) => c.(responseHandlerAmount := v))
  }

  function SslCertFileName(): Policy<Config> {
    TextPolicy("sslCertFileName", (c: Config) => c.sslCertFileName,
               (c: Config, v: string) => c.(sslCertFileName := v))
  }

  function SslKeyFileName(): Policy<Config> {
    TextPolicy("sslKeyFileName", (c: Config) => c.sslKeyFileName,
               (c: Config, v: string) => c.(sslKeyFileName := v))
  }

  function RequestsQueueSize(): Policy<Config> {
    UnsignedPolicy("requestsQueueSize", (c: Config) => c.requestsQueueSize,
                   (c: Config, v: uint32) => c.(requestsQueueSize := v))
  }

  function LoggerFilePath(): Policy<Config> {
    TextPolicy("LoggerConfiguration:LoggerFilePath", (c: Config) => c.loggerConfiguration.logFilePath,
               (c: Config, v: string) => c.(loggerConfiguration := c.loggerConfiguration.(logFilePath := v)))
  }

  function AllPolicies(): seq<Policy<Config>> {
    [Port(), RequestHandlerAmount(), ApplicationHandlerAmount(), ResponseHandlerAmount(), SslCertFileName(),
     SslKeyFileName(), RequestsQueueSize(), LoggerFilePath()]
  }

  method AddAllPolicies(policy: ParsingPolicy<Config>)
    modifies policy
    ensures policy.policies == old(policy.policies) + AllPolicies()
  {
    Add(policy, Port());
    Add(policy, RequestHandlerAmount());
    Add(policy, ApplicationHandlerAmount());
    Add(policy, ResponseHandlerAmount());
    Add(policy, SslCertFileName());
    Add(policy, SslKeyFileName());
    Add(policy, RequestsQueueSize());
    Add(policy, LoggerFilePath());
  }

  method Add(policy: ParsingPolicy<Config>, p: Policy<Config>)
    modifies policy
    ensures policy.policies == old(policy.policies) + [p]
  {
    policy.AddPolicy(p.key, p.kind, p.get, p.put);
  }

  /** The eight fields in the order of the policies. */
  function Attributes(c: Config): seq<Attribute> {
    [Unsigned(c.port), Unsigned(c.requestHandlerAmount), Unsigned(c.applicationHandlerAmount),
     Unsigned(c.responseHandlerAmount), Text(c.sslCertFileName), Text(c.sslKeyFileName),
     Unsigned(c.requestsQueueSize), Text(c.loggerConfiguration.logFilePath)]
  }

  /** What the policies do not cover. */
  function Rest(c: Config): Config {
    ServerConfiguration(c.configurationFilePath, 0, 0, 0, 0, 0, "", "", c.loggerConfiguration.(logFilePath := ""))
  }

  /** The policy is an accessor to the n-th of the eight fields and to nothing else. */
  ghost predicate Accesses(p: Policy<Config>, n: nat)
    requires n < 8
  {
    && (forall c :: p.get(c) == Attributes(c)[n] && p.get(c).Kind() == p.kind)
    && (forall c, a: Attribute :: a.Kind() == p.kind ==>
          Attributes(p.put(c, a)) == Attributes(c)[n := a] && Rest(p.put(c, a)) == Rest(c))
  }

  lemma PortAccess() ensures Accesses(Port(), 0) {}

  lemma RequestHandlerAmountAccess() ensures Accesses(RequestHandlerAmount(), 1) {}

  lemma ApplicationHandlerAmountAccess() ensures Accesses(ApplicationHandlerAmount(), 2) {}

  lemma ResponseHandlerAmountAccess() ensures Accesses(ResponseHandlerAmount(), 3) {}

  lemma SslCertFileNameAccess() ensures Accesses(SslCertFileName(), 4) {}

  lemma SslKeyFileNameAccess() ensures Accesses(SslKeyFileName(), 5) {}

  lemma RequestsQueueSizeAccess() ensures Accesses(RequestsQueueSize(), 6) {}

  lemma LoggerFilePathAccess() ensures Accesses(LoggerFilePath(), 7) {}

  lemma EightInOrder(p0: Policy<Config>, p1: Policy<Config>, p2: Policy<Config>, p3: Policy<Config>,
                     p4: Policy<Config>, p5: Policy<Config>, p6: Policy<Config>, p7: Policy<Config>)
    requires Accesses(p0, 0) && Accesses(p1, 1) && Accesses(p2, 2) && Accesses(p3, 3)
    requires Accesses(p4, 4) && Accesses(p5, 5) && Accesses(p6, 6) && Accesses(p7, 7)
    ensures forall n :: 0 <= n < 8 ==> Accesses([p0, p1, p2, p3, p4, p5, p6, p7][n], n)
  {
  }

  lemma EachPolicyAccessesItsField()
    ensures forall n :: 0 <= n < 8 ==> Accesses(AllPolicies()[n], n)
  {
    PortAccess(); RequestHandlerAmountAccess(); ApplicationHandlerAmountAccess();
    ResponseHandlerAmountAccess(); SslCertFileNameAccess(); SslKeyFileNameAccess();
    RequestsQueueSizeAccess(); LoggerFilePathAccess();
    EightInOrder(Port(), RequestHandlerAmount(), ApplicationHandlerAmount(), ResponseHandlerAmount(),
                 SslCertFileName(), SslKeyFileName(), RequestsQueueSize(), LoggerFilePath());
  }

  lemma AccessorsAreIndependent(policies: seq<Policy<Config>>)
    requires |policies| == 8 && forall n :: 0 <= n < 8 ==> Accesses(policies[n], n)
    ensures Independent(policies)
    ensures forall i :: 0 <= i < 8 ==> Keeps(policies[i], Rest)
  {
    forall i | 0 <= i < 8 ensures Lawful(policies[i]) && Keeps(policies[i], Rest) {
      assert Accesses(policies[i], i);
    }
    forall i, j | 0 <= i < 8 && 0 <= j < 8 && i != j ensures Keeps(policies[j], policies[i].get) {
      assert Accesses(policies[i], i) && Accesses(policies[j], j);
    }
  }

  lemma KeysAreDistinct()
    ensures DistinctKeys(AllPolicies())
  {
    var keys := seq(8, i requires 0 <= i < 8 => AllPolicies()[i].key);
    assert keys == ["port", "requestHandlerAmount", "applicationHandlerAmount", "responseHandlerAmount",
                    "sslCertFileName", "sslKeyFileName", "requestsQueueSize", "LoggerConfiguration:LoggerFilePath"];
    forall i, j | 0 <= i < j < 8 ensures AllPolicies()[i].key != AllPolicies()[j].key {
      assert AllPolicies()[i].key == keys[i] && AllPolicies()[j].key == keys[j];
    }
  }

  lemma RestoredAttributes(policies: seq<Policy<Config>>, written: Config, result: Config)
    requires |policies| == 8 && forall n :: 0 <= n < 8 ==> Accesses(policies[n], n)
    requires Restored(policies, written, result)
    ensures Attributes(result) == Attributes(written)
  {
    forall n | 0 <= n < 8 ensures Attributes(result)[n] == Attributes(written)[n] {
      assert Accesses(policies[n], n);
      assert policies[n].get(result) == policies[n].get(written);
    }
  }

  function Over(written: Config, over: Config): Config {
    written.(configurationFilePath := over.configurationFilePath,
             loggerConfiguration := over.loggerConfiguration.(logFilePath := written.loggerConfiguration.logFilePath))
  }

  lemma AttributesAndRestAreAll(written: Config, over: Config, result: Config)
    requires Attributes(result) == Attributes(written) && Rest(result) == Rest(over)
    ensures result == Over(written, over)
  {
    var r, w := Attributes(result), Attributes(written);
    assert r[0] == w[0] && r[1] == w[1] && r[2] == w[2] && r[3] == w[3];
    assert r[4] == w[4] && r[5] == w[5] && r[6] == w[6] && r[7] == w[7];
    assert result.loggerConfiguration.(logFilePath := "") == over.loggerConfiguration.(logFilePath := "");
  }

  lemma RoundTripOf(policies: seq<Policy<Config>>, written: Config, over: Config)
    requires |policies| == 8 && forall n :: 0 <= n < 8 ==> Accesses(policies[n], n)
    requires DistinctKeys(policies)
    ensures DeserializeAll(policies, over, SerializeAll(policies, written, JsonNull).0) == (Over(written, over), None)
  {
    AccessorsAreIndependent(policies);
    JsonRoundTrip(policies, written, over, JsonNull, Rest);
    var result := DeserializeAll(policies, over, SerializeAll(policies, written, JsonNull).0).0;
    RestoredAttributes(policies, written, result);
    AttributesAndRestAreAll(written, over, result);
  }

  /** A configuration written as JSON and read over any other gives the first one's eight fields and the second
      one's others. */
  lemma ConfigurationRoundTrip(written: Config, over: Config)
    ensures DeserializeAll(AllPolicies(), over, SerializeAll(AllPolicies(), written, JsonNull).0)
         == (Over(written, over), None)
  {
    EachPolicyAccessesItsField();
    KeysAreDistinct();
    RoundTripOf(AllPolicies(), written, over);
  }

  // ---- The documents ----

  /** The members of a document, under the names of the source, are these fields of the configuration. */
  predicate Holds(members: map<string, Json>, c: Config) {
    && Member(JsonObject(members), "port") == Some(JsonNumber(c.port as int))
    && Member(JsonObject(members), "requestHandlerAmount") == Some(JsonNumber(c.requestHandlerAmount as int))
    && Member(JsonObject(members), "applicationHandlerAmount") == Some(JsonNumber(c.applicationHandlerAmount as int))
    && Member(JsonObject(members), "responseHandlerAmount") == Some(JsonNumber(c.responseHandlerAmount as int))
    && Member(JsonObject(members), "sslCertFileName") == Some(JsonString(c.sslCertFileName))
    && Member(JsonObject(members), "sslKeyFileName") == Some(JsonString(c.sslKeyFileName))
    && Member(JsonObject(members), "requestsQueueSize") == Some(JsonNumber(c.requestsQueueSize as int))
    && Member(JsonObject(members), "LoggerConfiguration:LoggerFilePath")
       == Some(JsonString(c.loggerConfiguration.logFilePath))
  }

  function Keys(): seq<string> {
    ["port", "requestHandlerAmount", "applicationHandlerAmount", "responseHandlerAmount", "sslCertFileName",
     "sslKeyFileName", "requestsQueueSize", "LoggerConfiguration:LoggerFilePath"]
  }

  lemma PoliciesHaveKeys()
    ensures |AllPolicies()| == |Keys()| && forall i :: 0 <= i < 8 ==> AllPolicies()[i].key == Keys()[i]
  {
    assert AllPolicies()[0].key == Keys()[0] && AllPolicies()[1].key == Keys()[1] && AllPolicies()[2].key == Keys()[2];
    assert AllPolicies()[3].key == Keys()[3] && AllPolicies()[4].key == Keys()[4] && AllPolicies()[5].key == Keys()[5];
    assert AllPolicies()[6].key == Keys()[6] && AllPolicies()[7].key == Keys()[7];
  }

  /** The same, by position. */
  predicate HoldsInOrder(members: map<string, Json>, keys: seq<string>, attributes: seq<Attribute>) {
    |keys| == |attributes|
    && forall i :: 0 <= i < |keys| ==> Member(JsonObject(members), keys[i]) == Some(ToJson(attributes[i]))
  }

  lemma HoldingIsInOrder(members: map<string, Json>, c: Config)
    ensures Holds(members, c) <==> HoldsInOrder(members, Keys(), Attributes(c))
  {
    var keys, attributes := Keys(), Attributes(c);
    var ok := (i: int) requires 0 <= i < 8 => Member(JsonObject(members), keys[i]) == Some(ToJson(attributes[i]));
    assert Holds(members, c) <==> ok(0) && ok(1) && ok(2) && ok(3) && ok(4) && ok(5) && ok(6) && ok(7);
    assert HoldsInOrder(members, keys, attributes)
      ==> ok(0) && ok(1) && ok(2) && ok(3) && ok(4) && ok(5) && ok(6) && ok(7);
  }

  lemma KeysAreRead(policies: seq<Policy<Config>>, keys: seq<string>, members: map<string, Json>, c: Config,
                    over: Config)
    requires |policies| == |keys| == 8 && forall n :: 0 <= n < 8 ==> Accesses(policies[n], n)
    requires forall i :: 0 <= i < 8 ==> policies[i].key == keys[i]
    requires HoldsInOrder(members, keys, Attributes(c))
    ensures DeserializeAll(policies, over, JsonObject(members)) == (Over(c, over), None)
  {
    var json := JsonObject(members);
    forall i | 0 <= i < 8 ensures Read(policies[i].kind, policies[i].key, json) == Ok(policies[i].get(c)) {
      assert Accesses(policies[i], i);
      FromJsonInvertsToJson(policies[i].kind, Attributes(c)[i]);
    }
    AccessorsAreIndependent(policies);
    DeserializationReadsEveryKey(policies, over, json);
    DeserializationLeavesTheRest(policies, over, json, Rest);
    var result := DeserializeAll(policies, over, json).0;
    RestoredAttributes(policies, c, result);
    AttributesAndRestAreAll(c, over, result);
  }

  /** A document with these members, and any others, is read into these fields. */
  lemma DocumentIsRead(members: map<string, Json>, c: Config, over: Config)
    requires Holds(members, c)
    ensures DeserializeAll(AllPolicies(), over, JsonObject(members)) == (Over(c, over), None)
  {
    EachPolicyAccessesItsField();
    PoliciesHaveKeys();
    HoldingIsInOrder(members, c);
    KeysAreRead(AllPolicies(), Keys(), members, c, over);
  }

  lemma KeysAreWritten(policies: seq<Policy<Config>>, keys: seq<string>, c: Config)
    requires |policies| == |keys| == 8 && forall n :: 0 <= n < 8 ==> Accesses(policies[n], n)
    requires forall i :: 0 <= i < 8 ==> policies[i].key == keys[i]
    requires DistinctKeys(policies)
    ensures var (document, failure) := SerializeAll(policies, c, JsonNull);
            && failure == None && document.JsonObject?
            && HoldsInOrder(document.members, keys, Attributes(c))
            && forall key :: key in document.members ==> key in keys
  {
    var document := SerializeAll(policies, c, JsonNull).0;
    SerializationWritesEveryKey(policies, c, JsonNull, "");
    forall i | 0 <= i < 8 ensures Member(document, keys[i]) == Some(ToJson(Attributes(c)[i])) {
      assert Accesses(policies[i], i);
      OnlyPolicyIsPrinted(policies, c, i);
      SerializationWritesEveryKey(policies, c, JsonNull, keys[i]);
    }
    forall key | key in document.members ensures key in keys {
      SerializationWritesEveryKey(policies, c, JsonNull, key);
      if key !in keys { OtherKeysAreNotPrinted(policies, c, key); }
    }
  }

  /** The document written for a configuration has exactly these members. */
  lemma DocumentIsWritten(c: Config)
    ensures var (document, failure) := SerializeAll(AllPolicies(), c, JsonNull);
            && failure == None && document.JsonObject? && Holds(document.members, c)
            && forall key :: key in document.members ==> key in Keys()
  {
    EachPolicyAccessesItsField();
    PoliciesHaveKeys();
    KeysAreDistinct();
    KeysAreWritten(AllPolicies(), Keys(), c);
    HoldingIsInOrder(SerializeAll(AllPolicies(), c, JsonNull).0.members, c);
  }
}
