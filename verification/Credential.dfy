/**
 The device credential record and its rotation algebra: a record carries an active credential and, while
 a rotation is under way, the successor that was announced to the controller.
 */
module Credential {
  import opened Common

  datatype Secret = Secret(credentialId: string, value: string)
  datatype Pending = Pending(credentialId: string, credential: string, verifier: string, created: int)

  /** What the record is bound to; never touched by a rotation. */
  datatype Binding = Binding(controller: string, device: string, network: string, platform: string, key: string)

  datatype Record = Record(
    binding: Binding, credentialId: string, credential: string, issued: int, expires: int,
    scope: seq<string>, pending: Option<Pending>)

  /** Library formats and the hash; `parse` gives the identifier inside a well-formed credential. */
  datatype Formats = Formats(binding: Binding -> bool, parse: string -> Option<string>, hash: string -> string)

  const MINT := "overlay:session:mint"
  const ROTATE := "overlay:credential:rotate"
  const REVOKE := "overlay:device:revoke"
  const MAX_LIFETIME := 2_678_400   // 31 days
  const PROBE_LIFETIME := 2_592_000 // 30 days

  /** Exactly the three scopes, in any order. */
  predicate ScopeOk(values: seq<string>)
  {
    multiset(values) == multiset{MINT, ROTATE, REVOKE}
  }

  method ValidScope(values: seq<string>) returns (ok: bool)
    ensures ok <==> ScopeOk(values)
  {
    assert |MINT| == 20 && |ROTATE| == 25 && |REVOKE| == 21;
    ok := Exactly(values, MINT, ROTATE, REVOKE);
  }

  /** Three values, all allowed and no two alike, are a permutation of the three allowed ones. */
  method Exactly<T(==)>(values: seq<T>, a: T, b: T, c: T) returns (ok: bool)
    requires a != b && b != c && a != c
    ensures ok <==> multiset(values) == multiset{a, b, c}
  {
    if |values| != 3 {
      assert |multiset(values)| == |values|;
      return false;
    }
    var seen: set<T> := {};
    for i := 0 to 3
      invariant seen == set k | 0 <= k < i :: values[k]
      invariant forall k :: 0 <= k < i ==> values[k] in {a, b, c}
      invariant forall j, k :: 0 <= j < k < i ==> values[j] != values[k]
    {
      if values[i] !in {a, b, c} {
        assert values[i] in multiset(values);
        return false;
      }
      if values[i] in seen {
        var k :| 0 <= k < i && values[k] == values[i];
        Twice(values, k, i);
        return false;
      }
      seen := seen + {values[i]};
    }
    AllThree(values, seen, a, b, c);
    ok := a in seen && b in seen && c in seen;
  }

  lemma Permutes<T>(x: T, y: T, z: T, a: T, b: T, c: T)
    requires a != b && b != c && a != c && x != y && y != z && x != z
    requires x in {a, b, c} && y in {a, b, c} && z in {a, b, c}
    ensures multiset{x, y, z} == multiset{a, b, c}
    ensures {x, y, z} == {a, b, c}
  {
    if x == a {
    } else if x == b {
    } else {
    }
  }

  lemma AllThree<T>(values: seq<T>, seen: set<T>, a: T, b: T, c: T)
    requires |values| == 3 && a != b && b != c && a != c
    requires values[0] != values[1] && values[1] != values[2] && values[0] != values[2]
    requires values[0] in {a, b, c} && values[1] in {a, b, c} && values[2] in {a, b, c}
    requires seen == set k | 0 <= k < 3 :: values[k]
    ensures multiset(values) == multiset{a, b, c} && seen == {a, b, c}
  {
    Permutes(values[0], values[1], values[2], a, b, c);
    assert values == [values[0], values[1], values[2]];
    assert seen == {values[0], values[1], values[2]};
  }

  lemma Twice<T>(values: seq<T>, j: nat, k: nat)
    requires j < k < |values| && values[j] == values[k]
    ensures multiset(values)[values[k]] >= 2
  {
    assert values == values[..k] + [values[k]] + values[k + 1..];
    assert values[k] in multiset(values[..k]) by { assert values[..k][j] == values[k]; }
  }

  predicate PendingOk(fm: Formats, p: Pending, active: string)
  {
    fm.parse(p.credential) == Some(p.credentialId) && p.credentialId != active && p.verifier == fm.hash(p.credential)
  }

  /** Record.Validate */
  predicate Valid(fm: Formats, r: Record)
  {
    && fm.binding(r.binding) && fm.parse(r.credential) == Some(r.credentialId)
    && r.issued < r.expires <= r.issued + MAX_LIFETIME && ScopeOk(r.scope)
    && (r.pending.Some? ==> PendingOk(fm, r.pending.value, r.credentialId))
  }

  predicate Expired(r: Record, now: int)
  {
    r.expires <= now
  }

  function Checked(fm: Formats, r: Record): Option<Record>
  {
    if Valid(fm, r) then Some(r) else None
  }

  function WithPending(fm: Formats, r: Record, s: Secret, now: int): Option<Record>
  {
    if r.pending.Some? || fm.parse(s.value).None? || s.credentialId == r.credentialId then None
    else Checked(fm, r.(pending := Some(Pending(s.credentialId, s.value, fm.hash(s.value), now))))
  }

  function PromotePending(fm: Formats, r: Record, issued: int, expires: int, scope: seq<string>): Option<Record>
  {
    if r.pending.None? then None
    else Checked(fm, r.(credentialId := r.pending.value.credentialId, credential := r.pending.value.credential,
                        issued := issued, expires := expires, scope := scope, pending := None))
  }

  /** A view that authenticates as the successor; it is only ever used as a probe. */
  function PendingRecord(fm: Formats, r: Record): Option<Record>
  {
    if r.pending.None? then None
    else Checked(fm, r.(credentialId := r.pending.value.credentialId, credential := r.pending.value.credential,
                        issued := r.pending.value.created, expires := r.pending.value.created + PROBE_LIFETIME,
                          pending := None))
  }

  /** A valid record can always take a well-formed successor with a new identity, and only such a one. */
  lemma PendingAccepted(fm: Formats, r: Record, s: Secret, now: int)
    requires Valid(fm, r) && r.pending.None?
    ensures WithPending(fm, r, s, now).Some? <==>
              fm.parse(s.value) == Some(s.credentialId) && s.credentialId != r.credentialId
  {
  }

  /** A valid record with a successor can always be probed, and the probe carries no successor itself. */
  lemma ProbeAlwaysThere(fm: Formats, r: Record)
    requires Valid(fm, r) && r.pending.Some?
    ensures PendingRecord(fm, r).Some? && PendingRecord(fm, r).value.pending.None?
    ensures PendingRecord(fm, r).value.binding == r.binding
            && PendingRecord(fm, r).value.credential == r.pending.value.credential
  {
  }

  /** Announcing and promoting hands over exactly the announced secret, and nothing of the binding. */
  lemma RotationRoundTrip(fm: Formats, r: Record, s: Secret, now: int, issued: int, expires: int, scope: seq<string>)
    requires WithPending(fm, r, s, now).Some?
    ensures var p := WithPending(fm, r, s, now).value;
            var done := PromotePending(fm, p, issued, expires, scope);
            && p.credential == r.credential && p.(pending := None) == r
            && (done.Some? <==> issued < expires <= issued + MAX_LIFETIME && ScopeOk(scope))
            && (done.Some? ==> done.value == Record(r.binding, s.credentialId, s.value, issued, expires, scope, None))
  {
  }

  /** A recovered promotion uses the probe's own lifetime and always succeeds. */
  lemma RecoveryPromotes(fm: Formats, r: Record)
    requires Valid(fm, r) && r.pending.Some?
    ensures var probe := PendingRecord(fm, r).value;
            PromotePending(fm, r, probe.issued, probe.expires, r.scope) == Some(probe)
  {
    ProbeAlwaysThere(fm, r);
  }
}
