/**
 Local endpoints of the mesh: every socket of one device gets its own loopback port.
 `AllocateMesh` fills a fresh mesh, `NextPeers` carries a running mesh over to a new membership.
 */
module MeshAllocation {
  import opened Common
  import PM = PathManager

  const ATTEMPTS := 32

  /** A port the system reports as free; it may name one already handed out. */
  method FreePort() returns (a: Option<string>)
  {
    a := *;
  }

  method Allocate(used: set<string>) returns (a: Option<string>)
    ensures a.Some? ==> a.value !in used
  {
    for i := 0 to ATTEMPTS {
      a := FreePort();
      if a.None? || a.value !in used {
        return;
      }
    }
    a := None;
  }

  /** No two peers share an endpoint and none uses a reserved one. */
  predicate Apart(peers: seq<PM.Peer>, reserved: set<string>)
  {
    && (forall i :: 0 <= i < |peers| ==> peers[i].localEndpoint !in reserved)
    && (forall i, j :: 0 <= i < j < |peers| ==> peers[i].localEndpoint != peers[j].localEndpoint)
  }

  /** The same peers, up to their local endpoints. */
  predicate SamePeers(a: seq<PM.Peer>, b: seq<PM.Peer>)
  {
    PM.Cleared(a) == PM.Cleared(b)
  }

  lemma SamePeersExactly(a: seq<PM.Peer>, b: seq<PM.Peer>)
    ensures SamePeers(a, b) <==>
            && |a| == |b|
            && forall i :: 0 <= i < |a| ==>
                 a[i].deviceId == b[i].deviceId && a[i].publicKey == b[i].publicKey && a[i].address == b[i].address
  {
    if SamePeers(a, b) {
      assert |PM.Cleared(a)| == |a| && |PM.Cleared(b)| == |b|;
      forall i | 0 <= i < |a|
        ensures a[i].deviceId == b[i].deviceId && a[i].publicKey == b[i].publicKey && a[i].address == b[i].address
      {
        assert PM.Cleared(a)[i] == PM.Cleared(b)[i];
      }
    }
  }

  method AllocateMesh(fm: PM.Formats, mesh: PM.Config, gateway: string, now: int) returns (r: Option<PM.Config>)
    ensures r.Some? ==>
              && r.value == mesh.(relayEndpoint := r.value.relayEndpoint, wgEndpoint := r.value.wgEndpoint,
                peers := r.value.peers)
              && SamePeers(r.value.peers, mesh.peers)
              && r.value.relayEndpoint != gateway && r.value.wgEndpoint !in {gateway, r.value.relayEndpoint}
              && Apart(r.value.peers, {gateway, r.value.relayEndpoint, r.value.wgEndpoint})
              && PM.ConfigOk(fm, r.value, now)
  {
    hide PM.ConfigOk;
    var relay := Allocate({gateway});
    if relay.None? {
      return None;
    }
    var wg := Allocate({gateway, relay.value});
    if wg.None? {
      return None;
    }
    var reserved := {gateway, relay.value, wg.value};
    var used := reserved;
    var peers := mesh.peers;
    for i := 0 to |mesh.peers|
      invariant |peers| == |mesh.peers| && reserved <= used
      invariant forall k :: 0 <= k < |peers| ==> peers[k].(localEndpoint := "") == mesh.peers[k].(localEndpoint := "")
      invariant forall k :: 0 <= k < i ==> peers[k].localEndpoint in used
      invariant Apart(peers[..i], reserved)
    {
      var a := Allocate(used);
      if a.None? {
        return None;
      }
      ghost var before := peers[..i];
      assert forall k :: 0 <= k < |before| ==> before[k].localEndpoint in used;
      peers := peers[i := peers[i].(localEndpoint := a.value)];
      used := used + {a.value};
      assert peers[..i + 1] == before + [peers[i]];
    }
    assert peers[..|peers|] == peers;
    assert SamePeers(peers, mesh.peers);
    var c := mesh.(relayEndpoint := relay.value, wgEndpoint := wg.value, peers := peers);
    var ok := PM.ValidateConfig(fm, c, now);
    r := if ok then Some(c) else None;
  }

  predicate Unchanged(p: PM.Peer, q: PM.Peer)
  {
    p.deviceId == q.deviceId && p.publicKey == q.publicKey && p.address == q.address
  }

  predicate DistinctIds(peers: seq<PM.Peer>)
  {
    forall i, j :: 0 <= i < j < |peers| ==> peers[i].deviceId != peers[j].deviceId
  }

  function Endpoints(peers: seq<PM.Peer>): set<string>
  {
    set i | 0 <= i < |peers| :: peers[i].localEndpoint
  }

  /** A peer that did not change is the old one, endpoint included; any other has an endpoint that
      neither the old mesh nor the gateway uses. */
  predicate CarriedPeer(former: PM.Config, gateway: string, p: PM.Peer)
  {
    || p in former.peers
    || (&& (forall q :: q in former.peers ==> !Unchanged(p, q))
        && p.localEndpoint !in {former.relayEndpoint, former.wgEndpoint, gateway} + Endpoints(former.peers))
  }

  predicate Carried(former: PM.Config, gateway: string, peers: seq<PM.Peer>)
  {
    && (forall i :: 0 <= i < |peers| ==> CarriedPeer(former, gateway, peers[i]))
    && Apart(peers, {former.relayEndpoint, former.wgEndpoint})
  }

  /** A peer whose id, key and address were there before has the endpoint it had before. */
  predicate Keeps(former: seq<PM.Peer>, template: seq<PM.Peer>, peers: seq<PM.Peer>)
  {
    && |peers| <= |template|
    && forall i, q :: 0 <= i < |peers| && q in former && q.deviceId == template[i].deviceId
                      && q.publicKey == template[i].publicKey && q.address == template[i].address ==>
         peers[i].localEndpoint == q.localEndpoint
  }

  /** A kept endpoint clashes with nothing placed before it. */
  lemma KeptApart(former: PM.Config, gateway: string, before: seq<PM.Peer>, p: PM.Peer)
    requires DistinctIds(former.peers) && Apart(former.peers, {former.relayEndpoint, former.wgEndpoint})
    requires Carried(former, gateway, before) && p in former.peers
    requires forall k :: 0 <= k < |before| ==> before[k].deviceId != p.deviceId
    ensures Carried(former, gateway, before + [p])
  {
    var j :| 0 <= j < |former.peers| && former.peers[j] == p;
    forall k | 0 <= k < |before| ensures before[k].localEndpoint != p.localEndpoint {
      if before[k] in former.peers {
        var i :| 0 <= i < |former.peers| && former.peers[i] == before[k];
      } else {
        assert p.localEndpoint in Endpoints(former.peers);
      }
    }
  }

  /** An endpoint outside everything handed out so far clashes with nothing. */
  lemma FreshApart(former: PM.Config, gateway: string, before: seq<PM.Peer>, p: PM.Peer, used: set<string>)
    requires Carried(former, gateway, before)
    requires forall q :: q in former.peers ==> !Unchanged(p, q)
    requires forall k :: 0 <= k < |before| ==> before[k].localEndpoint in used
    requires {former.relayEndpoint, former.wgEndpoint, gateway} + Endpoints(former.peers) <= used
             && p.localEndpoint !in used
    ensures Carried(former, gateway, before + [p])
  {
  }

  lemma EarlierIds(peers: seq<PM.Peer>, i: nat)
    requires DistinctIds(peers) && i < |peers|
    ensures forall k :: 0 <= k < i ==> peers[k].deviceId != peers[i].deviceId
    ensures Endpoints(peers[..i + 1]) == Endpoints(peers[..i]) + {peers[i].localEndpoint}
  {
    var all := peers[..i + 1];
    assert all[..i] == peers[..i] && all[i] == peers[i];
    forall e | e in Endpoints(peers[..i]) + {peers[i].localEndpoint} ensures e in Endpoints(all) {
      if e in Endpoints(peers[..i]) {
        var k :| 0 <= k < i && peers[k].localEndpoint == e;
        assert all[k].localEndpoint == e;
      } else {
        assert all[i].localEndpoint == e;
      }
    }
  }

  method Index(former: PM.Config, gateway: string) returns (byId: map<string, PM.Peer>, used: set<string>)
    requires DistinctIds(former.peers)
    ensures used == {former.relayEndpoint, former.wgEndpoint, gateway} + Endpoints(former.peers)
    ensures forall d :: d in byId ==> byId[d] in former.peers && byId[d].deviceId == d
    ensures forall q :: q in former.peers ==> q.deviceId in byId && byId[q.deviceId] == q
  {
    assert Endpoints(former.peers[..0]) == {};
    hide DistinctIds, Endpoints;
    used := {former.relayEndpoint, former.wgEndpoint, gateway};
    byId := map[];
    for i := 0 to |former.peers|
      invariant used == {former.relayEndpoint, former.wgEndpoint, gateway} + Endpoints(former.peers[..i])
      invariant forall d :: d in byId ==> byId[d] in former.peers && byId[d].deviceId == d
      invariant forall k :: 0 <= k < i ==>
                former.peers[k].deviceId in byId && byId[former.peers[k].deviceId] == former.peers[k]
    {
      EarlierIds(former.peers, i);
      byId := byId[former.peers[i].deviceId := former.peers[i]];
      used := used + {former.peers[i].localEndpoint};
    }
    assert former.peers[..|former.peers|] == former.peers;
  }

  /** One peer: its old endpoint when nothing about it changed, a new one otherwise. */
  method Place(former: PM.Config, gateway: string, byId: map<string, PM.Peer>, before: seq<PM.Peer>, spec: PM.Peer,
               used: set<string>)
    returns (p: Option<PM.Peer>, next: set<string>)
    requires DistinctIds(former.peers) && Apart(former.peers, {former.relayEndpoint, former.wgEndpoint})
    requires Carried(former, gateway, before) && forall k :: 0 <= k < |before| ==> before[k].deviceId != spec.deviceId
    requires {former.relayEndpoint, former.wgEndpoint, gateway} + Endpoints(former.peers) <= used
    requires forall k :: 0 <= k < |before| ==> before[k].localEndpoint in used
    requires forall d :: d in byId ==> byId[d] in former.peers && byId[d].deviceId == d
    requires forall q :: q in former.peers ==> q.deviceId in byId && byId[q.deviceId] == q
    ensures used <= next
    ensures p.Some? ==> p.value == spec.(localEndpoint := p.value.localEndpoint) && p.value.localEndpoint in next
    ensures p.Some? ==> Carried(former, gateway, before + [p.value])
    ensures Known(former.peers, spec) ==> p.Some?
    ensures p.Some? ==> forall q :: q in former.peers && q.deviceId == spec.deviceId && q.publicKey == spec.publicKey
                                    && q.address == spec.address ==>
                          p.value.localEndpoint == q.localEndpoint
  {
    hide Apart, Carried;
    next := used;
    if spec.deviceId in byId && byId[spec.deviceId].publicKey == spec.publicKey
      && byId[spec.deviceId].address == spec.address {
      p := Some(spec.(localEndpoint := byId[spec.deviceId].localEndpoint));
      assert p.value == byId[spec.deviceId];
      assert p.value.localEndpoint in Endpoints(former.peers);
      KeptApart(former, gateway, before, p.value);
    } else {
      var a := Allocate(used);
      if a.None? || a.value == "" {
        return None, used;
      }
      p := Some(spec.(localEndpoint := a.value));
      FreshApart(former, gateway, before, p.value, used);
      next := used + {a.value};
    }
  }

  /** Every peer asked for was there before, with the same key and address. */
  ghost predicate AllKnown(former: seq<PM.Peer>, template: seq<PM.Peer>)
  {
    forall i :: 0 <= i < |template| ==> Known(former, template[i])
  }

  ghost predicate Known(former: seq<PM.Peer>, p: PM.Peer)
  {
    exists q :: q in former && q.deviceId == p.deviceId && q.publicKey == p.publicKey && q.address == p.address
  }

  lemma KeepsMore(former: seq<PM.Peer>, template: seq<PM.Peer>, peers: seq<PM.Peer>, p: PM.Peer)
    requires |peers| < |template| && Keeps(former, template, peers)
    requires var spec := template[|peers|];
             forall q :: q in former && q.deviceId == spec.deviceId && q.publicKey == spec.publicKey
                         && q.address == spec.address ==>
               p.localEndpoint == q.localEndpoint
    ensures Keeps(former, template, peers + [p])
  {
  }

  method NextPeers(former: PM.Config, gateway: string, template: seq<PM.Peer>) returns (r: Option<seq<PM.Peer>>)
    requires DistinctIds(former.peers) && DistinctIds(template)
    requires Apart(former.peers, {former.relayEndpoint, former.wgEndpoint})
    ensures r.Some? ==> SamePeers(r.value, template) && Carried(former, gateway, r.value)
    ensures r.Some? ==> Keeps(former.peers, template, r.value)
    ensures AllKnown(former.peers, template) ==> r.Some?
  {
    var byId, used := Index(former, gateway);
    var peers: seq<PM.Peer> := [];
    assert Carried(former, gateway, peers) && Keeps(former.peers, template, peers);
    hide Apart, Carried, Keeps;
    for i := 0 to |template|
      invariant |peers| == i
      invariant {former.relayEndpoint, former.wgEndpoint, gateway} + Endpoints(former.peers) <= used
      invariant forall k :: 0 <= k < i ==> peers[k].(localEndpoint := "") == template[k].(localEndpoint := "")
      invariant forall k :: 0 <= k < i ==> peers[k].localEndpoint in used
      invariant Carried(former, gateway, peers) && Keeps(former.peers, template, peers)
    {
      assert forall k :: 0 <= k < i ==> peers[k].deviceId == template[k].deviceId;
      var p, next := Place(former, gateway, byId, peers, template[i], used);
      if p.None? {
        return None;
      }
      KeepsMore(former.peers, template, peers, p.value);
      peers, used := peers + [p.value], next;
    }
    assert SamePeers(peers, template);
    r := Some(peers);
  }
}
