/**
 The durable floor of signed configuration: one list of bindings in one file. A generation below the
 binding's highest is a replay, and so is a different configuration id at the highest generation.
 */
module ConfigFloor {
  import opened Common

  datatype Key = Key(controller: string, device: string, network: string)

  datatype Binding = Binding(key: Key, locked: bool, generation: uint64, configId: string, digest: string)

  /** One request to move the floor. */
  datatype Offer = Offer(key: Key, configId: string, digest: string, generation: uint64)

  datatype Verdict = Fine | Replay | Failed

  predicate Space(c: char)
  {
    var n := c as int;
    9 <= n <= 13 || 0x2000 <= n <= 0x200A || n in {0x20, 0x85, 0xA0, 0x1680, 0x2028, 0x2029, 0x202F, 0x205F, 0x3000}
  }

  predicate Blank(s: string)
  {
    forall i :: 0 <= i < |s| ==> Space(s[i])
  }

  predicate DigestOk(d: string)
  {
    |d| == 64 && forall i :: 0 <= i < |d| ==> '0' <= d[i] <= '9' || 'a' <= d[i] <= 'f'
  }

  predicate OfferOk(o: Offer)
  {
    && !Blank(o.key.controller) && !Blank(o.key.device) && !Blank(o.key.network) && !Blank(o.configId)
    && o.generation != 0 && DigestOk(o.digest)
  }

  lemma NamesNetwork(o: Offer)
    ensures OfferOk(o) ==> o.key.network != ""
  {
  }

  /** At most one binding for one controller, device and network. */
  predicate Unique(bindings: seq<Binding>)
  {
    forall i, j :: 0 <= i < j < |bindings| ==> bindings[i].key != bindings[j].key
  }

  predicate Replays(b: Binding, o: Offer)
  {
    o.generation < b.generation || (o.generation == b.generation && b.configId != o.configId)
  }

  /** The floor as a partial map: what the list means. */
  ghost function Floor(bindings: seq<Binding>): map<Key, Binding>
    requires Unique(bindings)
  {
    map i | 0 <= i < |bindings| :: bindings[i].key := bindings[i]
  }

  predicate Allowed(floor: map<Key, Binding>, o: Offer)
  {
    OfferOk(o) && (o.key in floor ==> !Replays(floor[o.key], o))
  }

  function Moved(floor: map<Key, Binding>, o: Offer): map<Key, Binding>
  {
    floor[o.key := Binding(o.key, true, o.generation, o.configId, o.digest)]
  }

  /** Of a later generation, or the same configuration of the same generation. */
  predicate NotBelow(o: Offer, b: Binding)
  {
    b.generation < o.generation || (b.generation == o.generation && b.configId == o.configId)
  }

  lemma FloorAt(bindings: seq<Binding>, i: nat)
    requires Unique(bindings) && i < |bindings|
    ensures bindings[i].key in Floor(bindings) && Floor(bindings)[bindings[i].key] == bindings[i]
  {
  }

  lemma FloorUpdate(bindings: seq<Binding>, i: nat, b: Binding)
    requires Unique(bindings) && i < |bindings| && b.key == bindings[i].key
    ensures Unique(bindings[i := b]) && Floor(bindings[i := b]) == Floor(bindings)[b.key := b]
  {
    hide Floor, Unique;
    var next := bindings[i := b];
    StillUnique(bindings, next);
    SameKeys(bindings, next);
    FloorAt(bindings, i);
    forall k | k in Floor(bindings) ensures Floor(next)[k] == Floor(bindings)[b.key := b][k] {
      ValueAfterUpdate(bindings, i, b, k);
    }
  }

  lemma StillUnique(a: seq<Binding>, b: seq<Binding>)
    requires Unique(a) && |a| == |b| && forall k :: 0 <= k < |a| ==> a[k].key == b[k].key
    ensures Unique(b)
  {
  }

  lemma ValueAfterUpdate(bindings: seq<Binding>, i: nat, b: Binding, k: Key)
    requires Unique(bindings) && i < |bindings| && b.key == bindings[i].key && k in Floor(bindings)
    requires Unique(bindings[i := b]) && k in Floor(bindings[i := b])
    ensures Floor(bindings[i := b])[k] == if k == b.key then b else Floor(bindings)[k]
  {
    var j :| 0 <= j < |bindings| && bindings[j].key == k;
    FloorAt(bindings[i := b], j);
    FloorAt(bindings, j);
  }

  lemma SameKeys(a: seq<Binding>, b: seq<Binding>)
    requires Unique(a) && Unique(b) && |a| == |b| && forall k :: 0 <= k < |a| ==> a[k].key == b[k].key
    ensures Floor(a).Keys == Floor(b).Keys
  {
    forall k ensures k in Floor(a) <==> k in Floor(b) {
      if k in Floor(a) {
        var j :| 0 <= j < |a| && a[j].key == k;
        FloorAt(b, j);
      }
      if k in Floor(b) {
        var j :| 0 <= j < |b| && b[j].key == k;
        FloorAt(a, j);
      }
    }
  }

  lemma FloorAppend(bindings: seq<Binding>, b: Binding)
    requires Unique(bindings) && forall k :: 0 <= k < |bindings| ==> bindings[k].key != b.key
    ensures Unique(bindings + [b]) && Floor(bindings + [b]) == Floor(bindings)[b.key := b]
  {
    var next := bindings + [b];
    forall k | k in Floor(bindings)[b.key := b] ensures k in Floor(next)
      && Floor(next)[k] == Floor(bindings)[b.key := b][k] {
      if k == b.key {
        FloorAt(next, |bindings|);
      } else {
        var j :| 0 <= j < |bindings| && bindings[j].key == k;
        assert next[j] == bindings[j];
        FloorAt(next, j);
        FloorAt(bindings, j);
      }
    }
    forall k | k in Floor(next) ensures k in Floor(bindings)[b.key := b] {
      var j :| 0 <= j < |next| && next[j].key == k;
      if j < |bindings| {
        FloorAt(bindings, j);
      }
    }
  }

  // ---------- the store ----------

  class Store {
    var bindings: seq<Binding>   // a missing file is the empty list
    var readable: bool           // can the file be read right now?
    var writable: bool           // and replaced without failure?

    ghost predicate Valid()
      reads this`bindings
    {
      Unique(bindings)
    }

    constructor ()
      ensures Valid() && bindings == []
    {
      bindings, readable, writable := [], true, true;
    }

    /** Replaces the file. A failed write leaves the old file or the new one. */
    method Write(next: seq<Binding>) returns (ok: bool)
      modifies this`bindings
      ensures bindings == next || (!ok && bindings == old(bindings))
      ensures writable ==> ok
    {
      var late: bool := *;
      ok := *;
      ok := ok || writable;
      if ok || late {
        bindings := next;
      }
    }

    /** AcceptSignedConfig: a replay never changes the file, and only an allowed offer moves the floor. */
    method AcceptSignedConfig(o: Offer) returns (v: Verdict)
      requires Valid()
      modifies this`bindings
      ensures Valid()
      ensures v == Fine ==> Allowed(old(Floor(bindings)), o) && Floor(bindings) == Moved(old(Floor(bindings)), o)
      ensures v == Replay ==> bindings == old(bindings)
      ensures v == Replay ==> OfferOk(o) && !Allowed(old(Floor(bindings)), o)
      ensures OfferOk(o) && readable ==> (v == Replay <==> !Allowed(old(Floor(bindings)), o))
      ensures readable && writable ==> (v == Fine <==> Allowed(old(Floor(bindings)), o))
      // In terms of generations and identities: exactly an offer that is neither below the floor of its key nor
      // another configuration of the floor's generation is accepted, and it then is the floor, digest included.
      ensures OfferOk(o) && readable && writable ==>
                (v == Fine <==> (o.key in old(Floor(bindings)) ==> NotBelow(o, old(Floor(bindings))[o.key])))
      ensures v == Fine ==>
                && o.key in Floor(bindings) && Floor(bindings)[o.key].locked
                && Floor(bindings)[o.key].generation == o.generation && Floor(bindings)[o.key].configId == o.configId
                && Floor(bindings)[o.key].digest == o.digest
                && Floor(bindings) - {o.key} == old(Floor(bindings)) - {o.key}
      ensures Floor(bindings) == old(Floor(bindings))
              || (Allowed(old(Floor(bindings)), o) && Floor(bindings) == Moved(old(Floor(bindings)), o))
    {
      hide Floor, Unique, Blank, DigestOk;
      if Blank(o.key.controller) || Blank(o.key.device) || Blank(o.key.network) || Blank(o.configId)
        || o.generation == 0 || !DigestOk(o.digest) || !readable {
        return Failed;
      }
      var i := 0;
      while i < |bindings|
        invariant 0 <= i <= |bindings| && bindings == old(bindings)
        invariant forall k :: 0 <= k < i ==> bindings[k].key != o.key
      {
        if bindings[i].key == o.key {
          FloorAt(bindings, i);
          if Replays(bindings[i], o) {
            return Replay;
          }
          var b := bindings[i];
          if o.generation > b.generation {
            b := b.(generation := o.generation, configId := o.configId, digest := o.digest);
          } else if b.digest != o.digest {
            b := b.(digest := o.digest);
          }
          b := b.(locked := true);
          FloorUpdate(bindings, i, b);
          var ok := Write(bindings[i := b]);
          return if ok then Fine else Failed;
        }
        i := i + 1;
      }
      var b := Binding(o.key, true, o.generation, o.configId, o.digest);
      FloorAppend(bindings, b);
      NotInFloor(bindings, o.key);
      var ok := Write(bindings + [b]);
      v := if ok then Fine else Failed;
    }

    /** ValidateSignedConfigFloor: looks at every binding and changes nothing. */
    method ValidateSignedConfigFloor(o: Offer) returns (v: Verdict)
      ensures OfferOk(o) && readable ==> v == if AnyReplay(bindings, o) then Replay else Fine
      ensures !(OfferOk(o) && readable) ==> v == Failed
    {
      if Blank(o.key.controller) || Blank(o.key.device) || Blank(o.key.network) || Blank(o.configId)
        || o.generation == 0 || !DigestOk(o.digest) || !readable {
        return Failed;
      }
      for i := 0 to |bindings|
        invariant !AnyReplay(bindings[..i], o)
      {
        if bindings[i].key == o.key && Replays(bindings[i], o) {
          return Replay;
        }
      }
      assert bindings[..|bindings|] == bindings;
      v := Fine;
    }

    method IsSignedLocked(key: Key) returns (locked: Option<bool>)
      requires Valid()
      ensures readable ==> locked == Some(key in Floor(bindings) && Floor(bindings)[key].locked)
      ensures !readable ==> locked == None
    {
      hide Floor, Unique;
      if !readable {
        return None;
      }
      for i := 0 to |bindings|
        invariant forall k :: 0 <= k < i ==> bindings[k].key != key
      {
        if bindings[i].key == key {
          FloorAt(bindings, i);
          return Some(bindings[i].locked);
        }
      }
      NotInFloor(bindings, key);
      locked := Some(false);
    }
  }

  lemma NotInFloor(bindings: seq<Binding>, key: Key)
    requires Unique(bindings) && forall k :: 0 <= k < |bindings| ==> bindings[k].key != key
    ensures key !in Floor(bindings)
  {
  }

  predicate AnyReplay(bindings: seq<Binding>, o: Offer)
  {
    exists i :: 0 <= i < |bindings| && bindings[i].key == o.key && Replays(bindings[i], o)
  }

  /** What validation refuses is exactly what acceptance would refuse, as long as bindings are unique. */
  lemma ValidateIsAccept(bindings: seq<Binding>, o: Offer)
    requires Unique(bindings) && OfferOk(o)
    ensures AnyReplay(bindings, o) <==> !Allowed(Floor(bindings), o)
  {
    if o.key in Floor(bindings) {
      var i :| 0 <= i < |bindings| && bindings[i].key == o.key;
      FloorAt(bindings, i);
    } else {
      forall i | 0 <= i < |bindings| ensures bindings[i].key != o.key {
        if bindings[i].key == o.key {
          FloorAt(bindings, i);
        }
      }
    }
  }

  /** Uniqueness is needed: with two bindings of one key, acceptance looks at the first only. */
  lemma DuplicatesSplitTheTwo(key: Key, d: string)
    ensures var low, high := Binding(key, true, 1, "a", d), Binding(key, true, 9, "b", d);
            var o := Offer(key, "c", d, 5);
            !Unique([low, high]) && AnyReplay([low, high], o) && !Replays([low, high][0], o)
  {
    var low, high := Binding(key, true, 1, "a", d), Binding(key, true, 9, "b", d);
    assert [low, high][1] == high;
    assert [low, high][0].key == [low, high][1].key;
  }

  // ---------- whole runs ----------

  /** The floor after a run of offers, where only allowed ones count. */
  function After(floor: map<Key, Binding>, offers: seq<Offer>): map<Key, Binding>
  {
    if offers == [] then floor
    else
      var before := After(floor, offers[..|offers| - 1]);
      var o := offers[|offers| - 1];
      if Allowed(before, o) then Moved(before, o) else before
  }

  predicate AcceptedAt(floor: map<Key, Binding>, offers: seq<Offer>, i: nat)
    requires i < |offers|
  {
    Allowed(After(floor, offers[..i]), offers[i])
  }

  /** An accepted offer bounds the floor of its key from below, for good. */
  lemma {:induction false} FloorRises(floor: map<Key, Binding>, offers: seq<Offer>, i: nat)
    requires i < |offers| && AcceptedAt(floor, offers, i)
    ensures var end := After(floor, offers);
            var o := offers[i];
            && o.key in end && end[o.key].generation >= o.generation
            && (end[o.key].generation == o.generation ==> end[o.key].configId == o.configId)
  {
    var n := |offers| - 1;
    if i < n {
      assert offers[..n][..i] == offers[..i] && offers[..n][i] == offers[i];
      FloorRises(floor, offers[..n], i);
    }
  }

  /** Over any run, the accepted generations of one binding never decrease, and one generation never
      carries two configuration ids. */
  lemma {:induction false} GenerationsNeverDecrease(floor: map<Key, Binding>, offers: seq<Offer>, i: nat, j: nat)
    requires i < j < |offers| && offers[i].key == offers[j].key
    requires AcceptedAt(floor, offers, i) && AcceptedAt(floor, offers, j)
    ensures offers[i].generation <= offers[j].generation
    ensures offers[i].generation == offers[j].generation ==> offers[i].configId == offers[j].configId
  {
    assert offers[..j][..i] == offers[..i] && offers[..j][i] == offers[i];
    FloorRises(floor, offers[..j], i);
  }

  /** Once a key is bound it stays signed-locked through every run. */
  lemma {:induction false} LockIsForever(floor: map<Key, Binding>, offers: seq<Offer>, key: Key)
    requires key in floor && floor[key].locked
    ensures key in After(floor, offers) && After(floor, offers)[key].locked
  {
    if offers != [] {
      LockIsForever(floor, offers[..|offers| - 1], key);
    }
  }

  /** The floor of a key never falls. */
  lemma {:induction false} FloorNeverFalls(floor: map<Key, Binding>, offers: seq<Offer>, key: Key)
    requires key in floor
    ensures var end := After(floor, offers);
            && key in end && floor[key].generation <= end[key].generation
            && (floor[key].generation == end[key].generation ==> floor[key].configId == end[key].configId)
  {
    if offers != [] {
      FloorNeverFalls(floor, offers[..|offers| - 1], key);
    }
  }

  /** The floor of a key is the last accepted offer of this key, or what it was at the start. */
  lemma {:induction false} FloorIsLast(floor: map<Key, Binding>, offers: seq<Offer>, key: Key) returns (last: int)
    requires key in After(floor, offers)
    ensures -1 <= last < |offers|
    ensures var b := After(floor, offers)[key];
            if last < 0 then key in floor && floor[key] == b
            else AcceptedAt(floor, offers, last) && offers[last].key == key
                 && offers[last].generation == b.generation && offers[last].configId == b.configId
  {
    last := -1;
    if offers != [] {
      var n := |offers| - 1;
      if offers[n].key == key && AcceptedAt(floor, offers, n) {
        last := n;
      } else {
        last := FloorIsLast(floor, offers[..n], key);
        if last >= 0 {
          assert offers[..n][..last] == offers[..last] && offers[..n][last] == offers[last];
        }
      }
    }
  }

  /** Exactly what is accepted: over any list, a well-formed offer is, if and only if it is not below the floor at
      the start and every accepted earlier offer of its key has a smaller generation, or the same generation and
      the same configuration id. */
  lemma AcceptedExactly(floor: map<Key, Binding>, offers: seq<Offer>, n: nat)
    requires n < |offers|
    ensures AcceptedAt(floor, offers, n) <==>
            && OfferOk(offers[n])
            && (offers[n].key in floor ==>
                  var b := floor[offers[n].key];
                  b.generation < offers[n].generation
                  || (b.generation == offers[n].generation && b.configId == offers[n].configId))
            && forall i :: 0 <= i < n && offers[i].key == offers[n].key && AcceptedAt(floor, offers, i) ==>
                 || offers[i].generation < offers[n].generation
                 || (offers[i].generation == offers[n].generation && offers[i].configId == offers[n].configId)
  {
    var o, before := offers[n], After(floor, offers[..n]);
    if o.key in floor {
      FloorNeverFalls(floor, offers[..n], o.key);
    }
    if AcceptedAt(floor, offers, n) {
      forall i | 0 <= i < n && offers[i].key == o.key && AcceptedAt(floor, offers, i)
        ensures offers[i].generation < o.generation
                || (offers[i].generation == o.generation && offers[i].configId == o.configId)
      {
        GenerationsNeverDecrease(floor, offers, i, n);
      }
    } else if o.key in before {
      var last := FloorIsLast(floor, offers[..n], o.key);
      if last >= 0 {
        assert offers[..n][..last] == offers[..last] && offers[..n][last] == offers[last];
      }
    }
  }

  /** In particular an accepted offer is accepted again, with a renewed signature too, which then is the one on
      record. */
  lemma AcceptedAgain(floor: map<Key, Binding>, o: Offer, digest: string)
    requires Allowed(floor, o) && OfferOk(o.(digest := digest))
    ensures var again := o.(digest := digest);
            && Allowed(Moved(floor, o), again)
            && Moved(Moved(floor, o), again)[o.key] == Binding(o.key, true, o.generation, o.configId, digest)
  {
  }

  /** No accepted offer so far is above the floor of its key, or names another configuration there. */
  ghost predicate Bounded(floor: map<Key, Binding>, offers: seq<Offer>, verdicts: seq<Verdict>)
    requires |verdicts| <= |offers|
  {
    forall i :: 0 <= i < |verdicts| && verdicts[i] == Fine ==>
      && offers[i].key in floor && offers[i].generation <= floor[offers[i].key].generation
      && (offers[i].generation == floor[offers[i].key].generation ==>
          offers[i].configId == floor[offers[i].key].configId)
  }

  /** What any run of the store keeps, call by call. */
  ghost predicate NeverBack(offers: seq<Offer>, verdicts: seq<Verdict>)
    requires |verdicts| <= |offers|
  {
    forall i, j |
      0 <= i < j < |verdicts| && verdicts[i] == Fine && verdicts[j] == Fine && offers[i].key == offers[j].key ::
      && offers[i].generation <= offers[j].generation
      && (offers[i].generation == offers[j].generation ==> offers[i].configId == offers[j].configId)
  }

  ghost predicate StaysLocked(before: map<Key, Binding>, after: map<Key, Binding>)
  {
    forall k :: k in before && before[k].locked ==> k in after && after[k].locked
  }

  /** The floor of every key is what it was at the start, or comes from a call that was not refused as a replay. */
  ghost predicate Traced(start: map<Key, Binding>, floor: map<Key, Binding>, offers: seq<Offer>, verdicts: seq<Verdict>)
    requires |verdicts| <= |offers|
  {
    forall k :: k in floor ==>
      || (k in start && start[k].generation == floor[k].generation && start[k].configId == floor[k].configId)
      || exists i :: 0 <= i < |verdicts| && Stands(floor[k], offers[i], verdicts[i])
  }

  predicate Stands(b: Binding, o: Offer, v: Verdict)
  {
    v != Replay && o.key == b.key && o.generation == b.generation && o.configId == b.configId
  }

  ghost predicate OwnKeys(floor: map<Key, Binding>)
  {
    forall k :: k in floor ==> floor[k].key == k
  }

  /** A call refused as a replay is below the start's floor, or below an earlier call that was not refused. */
  ghost predicate RefusedForCause(start: map<Key, Binding>, offers: seq<Offer>, verdicts: seq<Verdict>)
    requires |verdicts| <= |offers|
  {
    forall n :: 0 <= n < |verdicts| && verdicts[n] == Replay ==>
      || (offers[n].key in start && Below(offers[n], start[offers[n].key].generation, start[offers[n].key].configId))
      || exists i :: 0 <= i < n && verdicts[i] != Replay && offers[i].key == offers[n].key
                     && Below(offers[n], offers[i].generation, offers[i].configId)
  }

  predicate Below(o: Offer, generation: uint64, configId: string)
  {
    o.generation < generation || (o.generation == generation && o.configId != configId)
  }

  lemma OneMoreCause(start: map<Key, Binding>, before: map<Key, Binding>, after: map<Key, Binding>, offers: seq<Offer>,
                     verdicts: seq<Verdict>, v: Verdict)
    requires |verdicts| < |offers| && OwnKeys(before)
    requires Traced(start, before, offers, verdicts) && RefusedForCause(start, offers, verdicts)
    requires var o := offers[|verdicts|];
             && (v == Replay ==> after == before && OfferOk(o) && !Allowed(before, o))
             && (after == before || (v != Replay && Allowed(before, o) && after == Moved(before, o)))
    ensures OwnKeys(after) && Traced(start, after, offers, verdicts + [v])
            && RefusedForCause(start, offers, verdicts + [v])
  {
    var n, o, next := |verdicts|, offers[|verdicts|], verdicts + [v];
    forall k | k in after
      ensures || (k in start && start[k].generation == after[k].generation && start[k].configId == after[k].configId)
              || exists i :: 0 <= i < |next| && Stands(after[k], offers[i], next[i])
    {
      if after != before && k == o.key {
        assert Stands(after[k], offers[n], next[n]);
      } else if exists i :: 0 <= i < n && Stands(before[k], offers[i], verdicts[i]) {
        var i :| 0 <= i < n && Stands(before[k], offers[i], verdicts[i]);
        assert Stands(after[k], offers[i], next[i]);
      }
    }
    if v == Replay {
      var b := before[o.key];
      if i :| 0 <= i < n && Stands(b, offers[i], verdicts[i]) {
        assert next[i] != Replay && offers[i].key == o.key && Below(o, offers[i].generation, offers[i].configId);
      }
    }
  }

  /** One more call, whether its write took effect or not. */
  lemma OneMoreOffer(before: map<Key, Binding>, after: map<Key, Binding>, offers: seq<Offer>, verdicts: seq<Verdict>,
                     v: Verdict)
    requires |verdicts| < |offers| && Bounded(before, offers, verdicts) && NeverBack(offers, verdicts)
    requires var o := offers[|verdicts|];
             && (after == before || (Allowed(before, o) && after == Moved(before, o)))
             && (v == Fine ==> Allowed(before, o) && after == Moved(before, o))
    ensures Bounded(after, offers, verdicts + [v]) && NeverBack(offers, verdicts + [v]) && StaysLocked(before, after)
  {
  }

  /** Every run of the store, with an unreadable file, and with writes that fail before or after the
      replacement: generations of accepted calls never decrease, one generation is one configuration, and a
      lock is for good. */
  method AnyRun(s: Store, offers: seq<Offer>) returns (verdicts: seq<Verdict>)
    requires s.Valid()
    modifies s
    ensures s.Valid() && |verdicts| == |offers|
    ensures NeverBack(offers, verdicts) && StaysLocked(old(Floor(s.bindings)), Floor(s.bindings))
    ensures RefusedForCause(old(Floor(s.bindings)), offers, verdicts)
  {
    FloorOwnKeys(s.bindings);
    hide Floor, Unique, OfferOk, Allowed, Moved, Bounded, NeverBack, RefusedForCause, Traced, OwnKeys;
    verdicts := [];
    NoOffers(Floor(s.bindings), offers);
    while |verdicts| < |offers|
      invariant s.Valid() && |verdicts| <= |offers|
      invariant Bounded(Floor(s.bindings), offers, verdicts) && NeverBack(offers, verdicts)
      invariant StaysLocked(old(Floor(s.bindings)), Floor(s.bindings))
      invariant OwnKeys(Floor(s.bindings)) && Traced(old(Floor(s.bindings)), Floor(s.bindings), offers, verdicts)
      invariant RefusedForCause(old(Floor(s.bindings)), offers, verdicts)
    {
      s.readable, s.writable := *, *;
      ghost var before := Floor(s.bindings);
      var v := s.AcceptSignedConfig(offers[|verdicts|]);
      OneMoreOffer(before, Floor(s.bindings), offers, verdicts, v);
      OneMoreCause(old(Floor(s.bindings)), before, Floor(s.bindings), offers, verdicts, v);
      verdicts := verdicts + [v];
    }
  }

  lemma FloorOwnKeys(bindings: seq<Binding>)
    requires Unique(bindings)
    ensures OwnKeys(Floor(bindings))
  {
  }

  lemma NoOffers(floor: map<Key, Binding>, offers: seq<Offer>)
    ensures Bounded(floor, offers, []) && NeverBack(offers, [])
    ensures Traced(floor, floor, offers, []) && RefusedForCause(floor, offers, [])
  {
  }
}
