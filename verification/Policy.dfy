/**
 The policy artifact: its validator, what adjacent-pair checks imply for the whole list, and the
 replay floor of its consumer.
 */
module Policy {
  import opened Common

  datatype Rule = Rule(
    wholeDevice: bool, id: string, action: string,
    sources: seq<string>, destinations: seq<string>, protocols: seq<string>, ports: seq<int>)

  datatype Artifact = Artifact(
    schema: int, compiler: string, network: string, revision: uint64, defaultAction: string,
    protectedFlows: seq<string>, rules: seq<Rule>)

  datatype Floor = Floor(network: string, generation: uint64, digest: string)
  datatype Reference = Reference(network: string, generation: uint64, digest: string, expires: int)
  datatype Verdict = Accepted(artifact: Artifact, generation: uint64, digest: string) | Invalid | Expired | Replay

  /** Go compares strings byte by byte; identifiers are ASCII. */
  predicate Less(a: string, b: string)
  {
    if b == "" then false
    else if a == "" then true
    else a[0] < b[0] || (a[0] == b[0] && Less(a[1..], b[1..]))
  }

  lemma {:induction false} LessIrreflexive(a: string)
    ensures !Less(a, a)
  {
    if a != "" {
      LessIrreflexive(a[1..]);
    }
  }

  lemma {:induction false} LessTransitive(a: string, b: string, c: string)
    requires Less(a, b) && Less(b, c)
    ensures Less(a, c)
  {
    if a != "" && a[0] == b[0] == c[0] {
      LessTransitive(a[1..], b[1..], c[1..]);
    }
  }

  /** The texts agree up to k, where the first ends or has the smaller byte. */
  predicate SmallerAt(a: string, b: string, k: nat)
  {
    k <= |a| && k < |b| && a[..k] == b[..k] && (k < |a| ==> a[k] < b[k])
  }

  /** The order of bytes: the first difference decides, and a beginning comes before the whole. */
  lemma {:induction false} LessExactly(a: string, b: string)
    ensures Less(a, b) <==> exists k: nat :: SmallerAt(a, b, k)
  {
    if b != "" && a != "" && a[0] == b[0] {
      LessExactly(a[1..], b[1..]);
      if k: nat :| SmallerAt(a[1..], b[1..], k) {
        assert a[..k + 1] == [a[0]] + a[1..][..k] && b[..k + 1] == [b[0]] + b[1..][..k];
        assert SmallerAt(a, b, k + 1);
      }
      if k: nat :| SmallerAt(a, b, k) {
        assert k > 0;
        assert a[1..][..k - 1] == a[..k][1..] && b[1..][..k - 1] == b[..k][1..];
        assert SmallerAt(a[1..], b[1..], k - 1);
      }
    } else if b != "" {
      assert a[..0] == b[..0];
      assert (a == "" || a[0] < b[0]) ==> SmallerAt(a, b, 0);
      if k: nat :| SmallerAt(a, b, k) {
        if k > 0 {
          SharedStart(a, b, k);
        }
      }
    }
  }

  lemma SharedStart(a: string, b: string, k: nat)
    requires SmallerAt(a, b, k) && k > 0
    ensures a != "" && b != "" && a[0] == b[0]
  {
    assert a[..k][0] == a[0] && b[..k][0] == b[0];
  }

  predicate Letter(c: char)
  {
    'a' <= c <= 'z' || 'A' <= c <= 'Z' || '0' <= c <= '9'
  }

  predicate IdOk(s: string)
  {
    && 0 < |s| <= 128 && Letter(s[0])
    && forall i :: 0 <= i < |s| ==> Letter(s[i]) || s[i] in "_.:-"
  }

  predicate Increasing(values: seq<string>)
  {
    forall i, j :: 0 <= i < j < |values| ==> Less(values[i], values[j])
  }

  /** Appending above the last element keeps the whole list increasing. */
  lemma IncreasingAppend(values: seq<string>, v: string)
    requires Increasing(values) && (values != [] ==> Less(values[|values| - 1], v))
    ensures Increasing(values + [v]) && v !in values
  {
    forall i | 0 <= i < |values| ensures Less(values[i], v) {
      if i < |values| - 1 {
        LessTransitive(values[i], values[|values| - 1], v);
      }
    }
    LessIrreflexive(v);
  }

  // ---------- the validator ----------

  predicate DevicesOk(values: seq<string>)
  {
    Increasing(values) && forall i :: 0 <= i < |values| ==> IdOk(values[i])
  }

  /** validDevices: neighbours in order make the whole list strictly increasing, so no value repeats. */
  method ValidDevices(values: seq<string>) returns (ok: bool)
    ensures ok <==> DevicesOk(values)
  {
    hide Less, IdOk;
    var seen: set<string> := {};
    for i := 0 to |values|
      invariant DevicesOk(values[..i])
      invariant forall v :: v in seen <==> v in values[..i]
    {
      if i > 0 && !Less(values[i - 1], values[i]) {
        return false;
      }
      IncreasingAppend(values[..i], values[i]);
      assert values[..i + 1] == values[..i] + [values[i]];
      if !IdOk(values[i]) || '@' in values[i] || values[i] in seen {
        IdHasNoAt(values[i]);
        return false;
      }
      seen := seen + {values[i]};
    }
    assert values[..|values|] == values;
    ok := true;
  }

  lemma IdHasNoAt(s: string)
    ensures IdOk(s) ==> '@' !in s
  {
  }

  predicate ProtocolsOk(values: seq<string>)
  {
    values != [] && Increasing(values) && forall i :: 0 <= i < |values| ==> values[i] in ["icmp", "tcp", "udp"]
  }

  method ValidProtocols(values: seq<string>) returns (ok: bool)
    ensures ok <==> ProtocolsOk(values)
  {
    hide Less;
    if values == [] {
      return false;
    }
    var seen: set<string> := {};
    for i := 0 to |values|
      invariant Increasing(values[..i])
      invariant forall k :: 0 <= k < i ==> values[k] in ["icmp", "tcp", "udp"]
      invariant forall v :: v in seen <==> v in values[..i]
    {
      if i > 0 && !Less(values[i - 1], values[i]) {
        return false;
      }
      IncreasingAppend(values[..i], values[i]);
      assert values[..i + 1] == values[..i] + [values[i]];
      if values[i] !in ["icmp", "tcp", "udp"] || values[i] in seen {
        return false;
      }
      seen := seen + {values[i]};
    }
    assert values[..|values|] == values;
    ok := true;
  }

  predicate PortsOk(protocols: seq<string>, ports: seq<int>)
  {
    if protocols == ["icmp"] then ports == []
    else
      && ports != []
      && (forall i :: 0 <= i < |ports| ==> 1 <= ports[i] <= 65535)
      && (forall i, j :: 0 <= i < j < |ports| ==> ports[i] < ports[j])
  }

  method ValidPorts(protocols: seq<string>, ports: seq<int>) returns (ok: bool)
    ensures ok <==> PortsOk(protocols, ports)
  {
    if |protocols| == 1 && protocols[0] == "icmp" {
      assert protocols == ["icmp"];
      return |ports| == 0;
    }
    if |ports| == 0 {
      return false;
    }
    var seen: set<int> := {};
    for i := 0 to |ports|
      invariant forall k :: 0 <= k < i ==> 1 <= ports[k] <= 65535
      invariant forall j, k :: 0 <= j < k < i ==> ports[j] < ports[k]
      invariant seen == set k | 0 <= k < i :: ports[k]
    {
      if i > 0 && ports[i - 1] >= ports[i] {
        return false;
      }
      if ports[i] < 1 || ports[i] > 65535 || ports[i] in seen {
        return false;
      }
      seen := seen + {ports[i]};
    }
    ok := true;
  }

  /** 65535 increasing ports in range leave no choice: they are all the ports, in order. */
  lemma AllPorts(protocols: seq<string>, ports: seq<int>)
    requires PortsOk(protocols, ports) && |ports| == 65535
    ensures forall i :: 0 <= i < 65535 ==> ports[i] == i + 1
  {
    forall i | 0 <= i < 65535 ensures ports[i] == i + 1 {
      AtLeast(ports, 0, i);
      AtLeast(ports, i, 65534);
    }
  }

  /** An increasing list of integers grows by at least one per place. */
  lemma {:induction false} AtLeast(ports: seq<int>, i: nat, j: nat)
    requires i <= j < |ports| && forall i, j :: 0 <= i < j < |ports| ==> ports[i] < ports[j]
    ensures ports[j] >= ports[i] + j - i
    decreases j - i
  {
    if i < j {
      AtLeast(ports, i, j - 1);
    }
  }

  method ExactStrings(got: seq<string>, want: seq<string>) returns (ok: bool)
    ensures ok <==> got == want
  {
    if |got| != |want| {
      return false;
    }
    for i := 0 to |got|
      invariant got[..i] == want[..i]
    {
      if got[i] != want[i] {
        return false;
      }
    }
    assert got[..|got|] == got && want[..|want|] == want;
    ok := true;
  }

  // ---------- rules ----------

  /** canonicalRuleOrder */
  predicate Before(p: Rule, c: Rule)
  {
    if p.action == c.action then Less(p.id, c.id) else p.action == "deny" && c.action == "accept"
  }

  predicate ActionOk(r: Rule)
  {
    r.action == "accept" || r.action == "deny"
  }

  lemma BeforeTransitive(a: Rule, b: Rule, c: Rule)
    requires Before(a, b) && Before(b, c) && ActionOk(a) && ActionOk(b) && ActionOk(c)
    ensures Before(a, c)
  {
    if a.action == b.action == c.action {
      LessTransitive(a.id, b.id, c.id);
    }
  }

  lemma BeforeAsymmetric(a: Rule, b: Rule)
    requires Before(a, b)
    ensures !Before(b, a)
  {
    if a.action == b.action && Less(b.id, a.id) {
      LessTransitive(a.id, b.id, a.id);
      LessIrreflexive(a.id);
    }
  }

  predicate RuleOk(r: Rule)
  {
    && IdOk(r.id) && ActionOk(r)
    && (r.wholeDevice ==> r.action == "accept" && r.protocols == ["icmp", "tcp", "udp"] && |r.ports| == 65535)
    && r.sources != [] && r.destinations != [] && DevicesOk(r.sources) && DevicesOk(r.destinations)
    && ProtocolsOk(r.protocols) && PortsOk(r.protocols, r.ports)
  }

  /** Every earlier rule comes before every later one. */
  predicate Ordered(rules: seq<Rule>)
  {
    forall i, j :: 0 <= i < j < |rules| ==> Before(rules[i], rules[j])
  }

  predicate UniqueIds(rules: seq<Rule>)
  {
    forall i, j :: 0 <= i < j < |rules| ==> rules[i].id != rules[j].id
  }

  predicate RulesOk(rules: seq<Rule>)
  {
    (forall i :: 0 <= i < |rules| ==> RuleOk(rules[i])) && Ordered(rules) && UniqueIds(rules)
  }

  lemma OrderedAppend(rules: seq<Rule>, r: Rule)
    requires Ordered(rules) && (forall i :: 0 <= i < |rules| ==> ActionOk(rules[i])) && ActionOk(r)
    requires rules != [] ==> Before(rules[|rules| - 1], r)
    ensures Ordered(rules + [r])
  {
    forall i | 0 <= i < |rules| ensures Before(rules[i], r) {
      if i < |rules| - 1 {
        BeforeTransitive(rules[i], rules[|rules| - 1], r);
      }
    }
  }

  const SCHEMA := 1
  const COMPILER := "xconnect-acl-v1alpha1.1"

  function ProtectedFlows(): seq<string>
  {
    ["control:controller-session", "control:gateway-apply-result", "control:gateway-heartbeat",
     "control:gateway-policy-artifact", "control:gateway-snapshot"]
  }

  predicate ArtifactOk(a: Artifact, network: string)
  {
    && a.schema == SCHEMA && a.compiler == COMPILER && a.network == network && a.defaultAction == "deny"
    && a.protectedFlows == ProtectedFlows() && RulesOk(a.rules)
  }

  /** The checks on one rule besides its place in the list. */
  method ValidRule(r: Rule) returns (ok: bool)
    ensures ok <==> RuleOk(r)
  {
    hide IdOk, DevicesOk, ProtocolsOk, PortsOk;
    if !IdOk(r.id) || (r.action != "accept" && r.action != "deny") {
      return false;
    }
    if r.wholeDevice {
      var all := ExactStrings(r.protocols, ["icmp", "tcp", "udp"]);
      if r.action != "accept" || !all || |r.ports| != 65535 {
        return false;
      }
    }
    if |r.sources| == 0 || |r.destinations| == 0 {
      return false;
    }
    ok := ValidDevices(r.sources);
    if !ok {
      return;
    }
    ok := ValidDevices(r.destinations);
    if !ok {
      return;
    }
    ok := ValidProtocols(r.protocols);
    if !ok {
      return;
    }
    ok := ValidPorts(r.protocols, r.ports);
  }

  /** validateArtifact: neighbour checks and one set of ids decide the order of the whole list. */
  method ValidateArtifact(a: Artifact, network: string) returns (ok: bool)
    ensures ok <==> ArtifactOk(a, network)
  {
    hide Before, ProtectedFlows;
    if a.schema != SCHEMA || a.compiler != COMPILER || a.network != network || a.defaultAction != "deny" {
      return false;
    }
    var exact := ExactStrings(a.protectedFlows, ProtectedFlows());
    if !exact {
      return false;
    }
    ok := ValidateRules(a.rules);
  }

  method ValidateRules(rules: seq<Rule>) returns (ok: bool)
    ensures ok <==> RulesOk(rules)
  {
    hide Before, RuleOk;
    var ids: set<string> := {};
    for i := 0 to |rules|
      invariant forall k :: 0 <= k < i ==> RuleOk(rules[k])
      invariant Ordered(rules[..i]) && UniqueIds(rules[..i])
      invariant ids == set k | 0 <= k < i :: rules[k].id
    {
      var valid := ValidRule(rules[i]);
      if !valid || rules[i].id in ids || (i > 0 && !Before(rules[i - 1], rules[i])) {
        return false;
      }
      forall k | 0 <= k <= i ensures ActionOk(rules[k]) {
        RuleActs(rules[k]);
      }
      OrderedAppend(rules[..i], rules[i]);
      assert rules[..i + 1] == rules[..i] + [rules[i]];
      ids := ids + {rules[i].id};
    }
    assert rules[..|rules|] == rules;
    ok := true;
  }

  lemma RuleActs(r: Rule)
    requires RuleOk(r)
    ensures ActionOk(r)
  {
  }

  // ---------- what a valid artifact looks like ----------

  /** All denies come first; inside each block the ids are strictly increasing. */
  lemma {:induction false} DeniesFirst(rules: seq<Rule>) returns (split: nat)
    requires Ordered(rules) && forall i :: 0 <= i < |rules| ==> ActionOk(rules[i])
    ensures split <= |rules|
    ensures forall i :: 0 <= i < split ==> rules[i].action == "deny"
    ensures forall i :: split <= i < |rules| ==> rules[i].action == "accept"
    ensures forall i, j :: 0 <= i < j < split || split <= i < j < |rules| ==> Less(rules[i].id, rules[j].id)
  {
    hide Less;
    split := 0;
    if rules != [] {
      var n := |rules| - 1;
      split := DeniesFirst(rules[..n]);
      assert split < n ==> Before(rules[split], rules[n]);
      if rules[n].action == "deny" {
        split := n + 1;
      }
      forall i, j | 0 <= i < j < split || split <= i < j < |rules| ensures Less(rules[i].id, rules[j].id) {
        assert Before(rules[i], rules[j]);
      }
    }
  }

  /** And every such list is in order. */
  lemma BlocksAreOrdered(rules: seq<Rule>, split: nat)
    requires split <= |rules|
    requires forall i :: 0 <= i < split ==> rules[i].action == "deny"
    requires forall i :: split <= i < |rules| ==> rules[i].action == "accept"
    requires forall i, j :: 0 <= i < j < split || split <= i < j < |rules| ==> Less(rules[i].id, rules[j].id)
    ensures Ordered(rules)
  {
    hide Less;
    assert "deny"[0] != "accept"[0];
  }

  /** An ordered list is determined by its set of rules. */
  lemma {:induction false} SameRulesSameList(a: seq<Rule>, b: seq<Rule>)
    requires Ordered(a) && Ordered(b) && forall r :: r in a <==> r in b
    ensures a == b
  {
    if a == [] {
      NothingIn(a, b);
    } else {
      assert a[0] in b;
      SameFirst(a, b);
      forall r ensures r in a[1..] <==> r in b[1..] {
        RestOf(a, r);
        RestOf(b, r);
      }
      SameRulesSameList(a[1..], b[1..]);
      assert a == [a[0]] + a[1..] && b == [b[0]] + b[1..];
    }
  }

  lemma NothingIn(a: seq<Rule>, b: seq<Rule>)
    requires forall r :: r in b ==> r in a
    ensures b != [] ==> a != []
  {
    if b != [] {
      assert b[0] in a;
    }
  }

  lemma SameFirst(a: seq<Rule>, b: seq<Rule>)
    requires Ordered(a) && Ordered(b) && a != [] && b != [] && a[0] in b && b[0] in a
    ensures a[0] == b[0]
  {
    if a[0] != b[0] {
      var j :| 0 <= j < |b| && b[j] == a[0];
      var i :| 0 <= i < |a| && a[i] == b[0];
      assert Before(b[0], b[j]) && Before(a[0], a[i]);
      BeforeAsymmetric(a[0], b[0]);
    }
  }

  lemma RestOf(a: seq<Rule>, r: Rule)
    requires Ordered(a) && a != []
    ensures r in a[1..] <==> r in a && r != a[0]
  {
    if r in a[1..] {
      var i :| 0 < i < |a| && a[i] == r;
      BeforeAsymmetric(a[0], r);
    }
  }

  /** Two valid artifacts of one network and revision with the same rules, in whatever order they were
      compiled, are the same artifact - so they have the same bytes and the same digest. */
  lemma CanonicalArtifact(a: Artifact, b: Artifact, network: string)
    requires ArtifactOk(a, network) && ArtifactOk(b, network) && a.revision == b.revision
    requires forall r :: r in a.rules <==> r in b.rules
    ensures a == b
  {
    SameRulesSameList(a.rules, b.rules);
  }

  /** A whole-device grant in a valid artifact covers every protocol and every port. */
  lemma WholeDeviceIsEverything(a: Artifact, network: string, k: nat)
    requires ArtifactOk(a, network) && k < |a.rules| && a.rules[k].wholeDevice
    ensures a.rules[k].action == "accept" && a.rules[k].protocols == ["icmp", "tcp", "udp"]
    ensures |a.rules[k].ports| == 65535 && forall i :: 0 <= i < 65535 ==> a.rules[k].ports[i] == i + 1
  {
    assert RuleOk(a.rules[k]);
    AllPorts(a.rules[k].protocols, a.rules[k].ports);
  }

  // ---------- the consumer ----------

  /** JSON and SHA-256. */
  datatype Codec<!R> = Codec(decode: R -> Option<Artifact>, encode: Artifact -> R, trim: R -> R, hash: R -> string,
    size: R -> nat)

  const MAX_BODY := 4_194_304

  predicate DigestOk(d: string)
  {
    |d| == 64 && forall i :: 0 <= i < |d| ==> 'a' <= d[i] <= 'f' || '0' <= d[i] <= '9'
  }

  predicate ReferenceOk(r: Reference)
  {
    r.generation != 0 && IdOk(r.network) && DigestOk(r.digest)
  }

  predicate Replays(r: Reference, floor: Floor)
  {
    r.generation < floor.generation
      || (r.generation == floor.generation && floor.digest != "" && floor.digest != r.digest)
  }

  predicate Authentic<R(==)>(c: Codec<R>, raw: R, r: Reference, a: Artifact)
  {
    && c.decode(raw) == Some(a) && ArtifactOk(a, r.network) && c.trim(raw) == c.encode(a)
    && c.hash(c.encode(a)) == r.digest
  }

  /** Consume accepts exactly a canonical, valid artifact with the referenced digest, in time and above the floor. */
  method Consume<R(==)>(c: Codec<R>, raw: R, r: Reference, floor: Floor, now: int) returns (v: Verdict)
    ensures v.Accepted? <==>
            && 0 < c.size(raw) <= MAX_BODY && ReferenceOk(r) && now < r.expires
            && floor.network in {"", r.network} && !Replays(r, floor)
            && exists a :: Authentic(c, raw, r, a)
    ensures v.Accepted? ==> v.generation == r.generation && v.digest == r.digest && Authentic(c, raw, r, v.artifact)
    ensures v == Replay ==> Replays(r, floor)
  {
    hide ArtifactOk, ReferenceOk;
    if c.size(raw) == 0 || c.size(raw) > MAX_BODY || !ReferenceOk(r) {
      return Invalid;
    }
    if r.expires <= now {
      return Expired;
    }
    if floor.network != "" && floor.network != r.network {
      return Invalid;
    }
    if r.generation < floor.generation
      || (r.generation == floor.generation && floor.digest != "" && floor.digest != r.digest) {
      return Replay;
    }
    var decoded := c.decode(raw);
    if decoded.None? {
      return Invalid;
    }
    var a := decoded.value;
    var ok := ValidateArtifact(a, r.network);
    if !ok || c.trim(raw) != c.encode(a) || c.hash(c.encode(a)) != r.digest {
      return Invalid;
    }
    assert Authentic(c, raw, r, a);
    v := Accepted(a, r.generation, r.digest);
  }

  /** The stored policy after a run of references, where only those above the floor are accepted. */
  function After(floor: Floor, run: seq<Reference>): Floor
  {
    if run == [] then floor
    else
      var before := After(floor, run[..|run| - 1]);
      var r := run[|run| - 1];
      if AcceptedBy(before, r) then Floor(r.network, r.generation, r.digest) else before
  }

  predicate AcceptedBy(floor: Floor, r: Reference)
  {
    ReferenceOk(r) && floor.network in {"", r.network} && !Replays(r, floor)
  }

  /** Once accepted, a policy generation is a floor for good, and it keeps its digest. */
  lemma {:induction false} PolicyFloorRises(floor: Floor, run: seq<Reference>, i: nat)
    requires i < |run| && AcceptedBy(After(floor, run[..i]), run[i])
    ensures var end := After(floor, run);
            && end.network == run[i].network && end.generation >= run[i].generation && end.digest != ""
            && (end.generation == run[i].generation ==> end.digest == run[i].digest)
  {
    hide IdOk, DigestOk;
    var n := |run| - 1;
    NotEmpty(run[i]);
    NotEmpty(run[n]);
    if i < n {
      assert run[..n][..i] == run[..i] && run[..n][i] == run[i];
      PolicyFloorRises(floor, run[..n], i);
    }
  }

  ghost predicate AcceptedAt(floor: Floor, run: seq<Reference>, i: nat)
    requires i < |run|
  {
    AcceptedBy(After(floor, run[..i]), run[i])
  }

  /** The floor is the last accepted reference, or what it was at the start. */
  lemma {:induction false} FloorIsLast(floor: Floor, run: seq<Reference>) returns (last: int)
    ensures -1 <= last < |run|
    ensures var end := After(floor, run);
            if last < 0 then end == floor
            else AcceptedAt(floor, run, last) && end == Floor(run[last].network, run[last].generation, run[last].digest)
  {
    last := -1;
    if run != [] {
      var n := |run| - 1;
      if AcceptedBy(After(floor, run[..n]), run[n]) {
        last := n;
      } else {
        last := FloorIsLast(floor, run[..n]);
        if last >= 0 {
          assert run[..n][..last] == run[..last] && run[..n][last] == run[last];
        }
      }
    }
  }

  /** Exactly what is accepted, starting from nothing: a well-formed reference is, if and only if every accepted
      earlier one is of its network, and of a smaller generation or the same generation and digest. */
  lemma AcceptedExactly(network: string, run: seq<Reference>, n: nat)
    requires n < |run| && network in {"", run[n].network}
    ensures var floor := Floor(network, 0, "");
            AcceptedAt(floor, run, n) <==>
            && ReferenceOk(run[n])
            && forall i :: 0 <= i < n && AcceptedAt(floor, run, i) ==>
                 && run[i].network == run[n].network
                 && (run[i].generation < run[n].generation
                     || (run[i].generation == run[n].generation && run[i].digest == run[n].digest))
  {
    hide IdOk, DigestOk;
    var floor, r := Floor(network, 0, ""), run[n];
    NotEmpty(r);
    if AcceptedAt(floor, run, n) {
      forall i | 0 <= i < n && AcceptedAt(floor, run, i)
        ensures run[i].network == r.network
                && (run[i].generation < r.generation
                || (run[i].generation == r.generation && run[i].digest == r.digest))
      {
        assert run[..n][..i] == run[..i] && run[..n][i] == run[i];
        NotEmpty(run[i]);
        PolicyFloorRises(floor, run[..n], i);
      }
    } else {
      var last := FloorIsLast(floor, run[..n]);
      if last >= 0 {
        assert run[..n][..last] == run[..last] && run[..n][last] == run[last];
        NotEmpty(run[last]);
      }
    }
  }

  lemma NotEmpty(r: Reference)
    ensures ReferenceOk(r) ==> r.network != "" && r.digest != ""
  {
  }

  // ---------- the stored floor ----------

  /** What one device is offered: an artifact's bytes, the verified reference to it, and the time. */
  datatype Offer<R> = Offer(raw: R, reference: Reference, now: int)

  /** The policy state file of one device; its writes may fail before or after the replacement. */
  class Store {
    var kept: Option<Floor>
    var readable: bool
    var writable: bool

    /** The floor a network's policy is judged by. */
    function FloorFor(network: string): Floor
      reads this`kept
    {
      if kept.Some? then kept.value else Floor(network, 0, "")
    }

    /** Takes an artifact: judged by the stored floor, and stored once accepted. */
    method Take<R(==)>(c: Codec<R>, offer: Offer<R>) returns (taken: bool, v: Verdict)
      modifies this`kept
      ensures taken ==>
                v.Accepted?
                  && kept == Some(Floor(offer.reference.network, offer.reference.generation, offer.reference.digest))
      ensures v.Accepted? ==> AcceptedBy(old(FloorFor(offer.reference.network)), offer.reference)
      ensures kept == old(kept)
              || (&& v.Accepted?
                  && kept == Some(Floor(offer.reference.network, offer.reference.generation, offer.reference.digest)))
      ensures readable && writable ==>
                (taken <==>
                  && 0 < c.size(offer.raw) <= MAX_BODY && offer.now < offer.reference.expires
                  && AcceptedBy(old(FloorFor(offer.reference.network)), offer.reference)
                  && exists a :: Authentic(c, offer.raw, offer.reference, a))
    {
      hide ReferenceOk, Replays, Authentic;
      taken, v := false, Invalid;
      var r := offer.reference;
      if !readable {
        return;
      }
      v := Consume(c, offer.raw, r, FloorFor(r.network), offer.now);
      if !v.Accepted? {
        return;
      }
      var fails: bool, late: bool := *, *;
      taken := writable || !fails;
      if taken || late {
        kept := Some(Floor(r.network, v.generation, v.digest));
      }
    }
  }

  /** What was taken so far is of the floor's network, and not above it. */
  ghost predicate Below<R>(kept: Option<Floor>, offers: seq<Offer<R>>, taken: seq<bool>)
    requires |taken| <= |offers|
  {
    forall i :: 0 <= i < |taken| && taken[i] ==> kept.Some? && AtMost(offers[i].reference, kept.value)
  }

  predicate AtMost(r: Reference, f: Floor)
  {
    r.network == f.network != "" && r.generation <= f.generation && f.digest != ""
      && (r.generation == f.generation ==> r.digest == f.digest)
  }

  /** Later policies are of the same network, never of a lower generation, and of another digest only with a
      higher one. */
  predicate NotBefore(r: Reference, q: Reference)
  {
    r.network == q.network && r.generation <= q.generation && (r.generation == q.generation ==> r.digest == q.digest)
  }

  lemma Rises(r: Reference, f: Floor, q: Reference)
    requires AtMost(r, f) && AcceptedBy(f, q)
    ensures NotBefore(r, q) && AtMost(r, Floor(q.network, q.generation, q.digest))
  {
    hide IdOk, DigestOk;
    NotEmpty(q);
  }

  /** Every run of the store, with unreadable files and failing writes: of the policies that were taken, a later
      one never is of another network or of a lower generation, and one generation is one artifact digest. */
  method AnyRun<R(==)>(s: Store, c: Codec<R>, offers: seq<Offer<R>>) returns (taken: seq<bool>)
    requires s.kept.Some? ==> s.kept.value.network != "" && s.kept.value.digest != ""
    modifies s
    ensures |taken| == |offers|
    ensures forall i, j :: 0 <= i < j < |taken| && taken[i] && taken[j] ==>
              NotBefore(offers[i].reference, offers[j].reference)
  {
    taken := [];
    while |taken| < |offers|
      invariant |taken| <= |offers| && Below(s.kept, offers, taken)
      invariant s.kept.Some? ==> s.kept.value.network != "" && s.kept.value.digest != ""
      invariant forall i, j :: 0 <= i < j < |taken| && taken[i] && taken[j] ==>
                NotBefore(offers[i].reference, offers[j].reference)
    {
      hide ReferenceOk, NotBefore, AtMost, AcceptedBy;
      s.readable, s.writable := *, *;
      ghost var before, q := s.kept, offers[|taken|].reference;
      var ok, v := s.Take(c, offers[|taken|]);
      if v.Accepted? {
        TakenOk(s.kept, before, q);
        forall i | 0 <= i < |taken| && taken[i] ensures NotBefore(offers[i].reference, q)
          && AtMost(offers[i].reference, Floor(q.network, q.generation, q.digest)) {
          Rises(offers[i].reference, before.value, q);
        }
      }
      taken := taken + [ok];
    }
  }

  lemma TakenOk(kept: Option<Floor>, before: Option<Floor>, q: Reference)
    requires AcceptedBy(if before.Some? then before.value else Floor(q.network, 0, ""), q)
    ensures q.network != "" && q.digest != "" && AtMost(q, Floor(q.network, q.generation, q.digest))
  {
    NotEmpty(q);
  }
}
