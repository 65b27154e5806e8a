/** One message goes to every active device of every participant except the one that wrote it. The
    check that the sender's list of envelopes is exactly that, and what acknowledging does. */
module ChatFanout {
  import opened Common
  import opened IdempotencyKeys

  datatype Envelope = Envelope(userId: string, deviceId: string, ciphertext: string)

  /** A participant with the ids of the active devices. */
  datatype Participant = Participant(id: string, devices: seq<string>)

  type Destination = (string, string)

  // The required fan-out --------------------------------------------------------------------------

  function DevicesToReach(p: Participant, senderId: string, senderDevice: string): set<string> {
    set d | d in p.devices && !(p.id == senderId && d == senderDevice)
  }

  function Destinations(p: Participant, senderId: string, senderDevice: string): set<Destination> {
    set d | d in DevicesToReach(p, senderId, senderDevice) :: (p.id, d)
  }

  /** All active devices of all participants, minus the authoring device. */
  function Required(ps: seq<Participant>, senderId: string, senderDevice: string): set<Destination> {
    if ps == [] then {}
    else Required(ps[..|ps| - 1], senderId, senderDevice) + Destinations(ps[|ps| - 1], senderId, senderDevice)
  }

  function Given(envelopes: seq<Envelope>): set<Destination> {
    set e | e in envelopes :: (e.userId, e.deviceId)
  }

  /** The key under which the check remembers an envelope. */
  function SeenKey(e: Envelope): string {
    Join(e.userId, e.deviceId)
  }

  ghost predicate KeysDistinct(envelopes: seq<Envelope>) {
    forall i, j :: 0 <= i < j < |envelopes| ==> SeenKey(envelopes[i]) != SeenKey(envelopes[j])
  }

  ghost predicate DestinationsDistinct(envelopes: seq<Envelope>) {
    forall i, j :: 0 <= i < j < |envelopes| ==>
      !(envelopes[i].userId == envelopes[j].userId && envelopes[i].deviceId == envelopes[j].deviceId)
  }

  /** What the check accepts. */
  ghost predicate Accepts(envelopes: seq<Envelope>, required: set<Destination>) {
    KeysDistinct(envelopes) && Given(envelopes) == required
  }

  /** What it is meant to accept: every required destination once, and no other. */
  ghost predicate IsFanout(envelopes: seq<Envelope>, required: set<Destination>) {
    DestinationsDistinct(envelopes) && Given(envelopes) == required
  }

  // The check -------------------------------------------------------------------------------------

  datatype Verdict =
    | Accepted
    | Duplicate(index: nat)
    | NotParticipant(index: nat)
    | NotActiveDevice(index: nat)
    | MissingDevices(destinations: set<Destination>)

  /** The map of sets stands for a set of destinations: no empty inner sets. */
  ghost predicate Represents(expected: map<string, set<string>>, rest: set<Destination>) {
    && (forall u :: u in expected ==> expected[u] != {})
    && (forall x :: x in rest <==> x.0 in expected && x.1 in expected[x.0])
  }

  lemma RequiredUsers(ps: seq<Participant>, senderId: string, senderDevice: string)
    ensures forall x :: x in Required(ps, senderId, senderDevice) ==> exists p :: p in ps && p.id == x.0
  {
    if ps != [] {
      RequiredUsers(ps[..|ps| - 1], senderId, senderDevice);
      assert forall p :: p in ps[..|ps| - 1] ==> p in ps;
    }
  }

  lemma GivenAppend(envelopes: seq<Envelope>, e: Envelope)
    ensures Given(envelopes + [e]) == Given(envelopes) + {(e.userId, e.deviceId)}
  {
    forall x | x in Given(envelopes) + {(e.userId, e.deviceId)} ensures x in Given(envelopes + [e]) {
      if x in Given(envelopes) {
        var f :| f in envelopes && x == (f.userId, f.deviceId);
        assert f in envelopes + [e];
      } else {
        assert e in envelopes + [e];
      }
    }
  }

  /** The device is an active one of a participant and not the authoring one. */
  predicate MustReach(ps: seq<Participant>, senderId: string, senderDevice: string, u: string, d: string) {
    (exists p :: p in ps && p.id == u && d in p.devices) && !(u == senderId && d == senderDevice)
  }

  predicate IsAddressed(envelopes: seq<Envelope>, u: string, d: string) {
    exists e :: e in envelopes && e.userId == u && e.deviceId == d
  }

  /** The required fan-out, in full. */
  lemma {:induction false} RequiredMeans(ps: seq<Participant>, senderId: string, senderDevice: string, u: string, d: string)
    ensures (u, d) in Required(ps, senderId, senderDevice) <==> MustReach(ps, senderId, senderDevice, u, d)
  {
    if ps == [] {
    } else {
      var before, last := ps[..|ps| - 1], ps[|ps| - 1];
      RequiredMeans(before, senderId, senderDevice, u, d);
      assert ps == before + [last];
      assert (u, d) in Destinations(last, senderId, senderDevice) <==> u == last.id && d in DevicesToReach(last, senderId, senderDevice);
      assert (exists p :: p in ps && p.id == u && d in p.devices)
             <==> (last.id == u && d in last.devices) || exists p :: p in before && p.id == u && d in p.devices;
    }
  }

  /** What acceptance comes to: no two envelopes with the same joined destination, and envelopes for exactly
      the active devices of the participants other than the authoring one. */
  lemma AcceptsMeans(envelopes: seq<Envelope>, senderId: string, senderDevice: string, ps: seq<Participant>)
    ensures Accepts(envelopes, Required(ps, senderId, senderDevice)) <==>
            && (forall i, j :: 0 <= i < j < |envelopes| ==>
                  envelopes[i].userId + ":" + envelopes[i].deviceId != envelopes[j].userId + ":" + envelopes[j].deviceId)
            && (forall u, d :: IsAddressed(envelopes, u, d) <==> MustReach(ps, senderId, senderDevice, u, d))
  {
    var required := Required(ps, senderId, senderDevice);
    KeysDistinctMeans(envelopes);
    forall u, d
      ensures (u, d) in required <==> MustReach(ps, senderId, senderDevice, u, d)
      ensures (u, d) in Given(envelopes) <==> IsAddressed(envelopes, u, d)
    {
      RequiredMeans(ps, senderId, senderDevice, u, d);
    }
    SameDestinations(Given(envelopes), required);
  }

  lemma KeysDistinctMeans(envelopes: seq<Envelope>)
    ensures KeysDistinct(envelopes) <==>
            forall i, j :: 0 <= i < j < |envelopes| ==>
              envelopes[i].userId + ":" + envelopes[i].deviceId != envelopes[j].userId + ":" + envelopes[j].deviceId
  {
    forall i | 0 <= i < |envelopes| ensures SeenKey(envelopes[i]) == envelopes[i].userId + ":" + envelopes[i].deviceId {
      JoinIs(envelopes[i]);
    }
    if KeysDistinct(envelopes) {
      assert forall i, j :: 0 <= i < j < |envelopes| ==> SeenKey(envelopes[i]) != SeenKey(envelopes[j]);
    }
  }

  lemma JoinIs(e: Envelope)
    ensures SeenKey(e) == e.userId + ":" + e.deviceId
  {
  }

  lemma SameDestinations(a: set<Destination>, b: set<Destination>)
    ensures a == b <==> forall u, d :: (u, d) in a <==> (u, d) in b
  {
    if forall u, d :: (u, d) in a <==> (u, d) in b {
      forall x ensures x in a <==> x in b {
        assert x == (x.0, x.1);
      }
    }
  }

  /** A user with devices to reach becomes a new entry of the map; one without leaves it alone. */
  lemma AddUser(expected: map<string, set<string>>, rest: set<Destination>, p: Participant, senderId: string, senderDevice: string)
    requires Represents(expected, rest) && forall x :: x in rest ==> x.0 != p.id
    ensures var ids := DevicesToReach(p, senderId, senderDevice);
            Represents(if ids == {} then expected else expected[p.id := ids], rest + Destinations(p, senderId, senderDevice))
  {
    var ids := DevicesToReach(p, senderId, senderDevice);
    var all := rest + Destinations(p, senderId, senderDevice);
    var expected' := if ids == {} then expected else expected[p.id := ids];
    var before := if p.id in expected then expected[p.id] else {};
    assert forall d :: d in before ==> (p.id, d) in rest;
    assert before == {};
    forall x: Destination ensures x in all <==> x.0 in expected' && x.1 in expected'[x.0] {
      assert x in Destinations(p, senderId, senderDevice) <==> x.0 == p.id && x.1 in ids by {
        assert x == (x.0, x.1);
      }
    }
  }

  /** First loop: the map of the devices to reach. */
  method BuildExpected(ps: seq<Participant>, senderId: string, senderDevice: string)
    returns (expected: map<string, set<string>>)
    requires forall i, j :: 0 <= i < j < |ps| ==> ps[i].id != ps[j].id
    ensures Represents(expected, Required(ps, senderId, senderDevice))
  {
    expected := map[];
    for n := 0 to |ps|
      invariant Represents(expected, Required(ps[..n], senderId, senderDevice))
    {
      var p := ps[n];
      var ids: set<string> := {};
      for k := 0 to |p.devices|
        invariant ids == set d | d in p.devices[..k] && !(p.id == senderId && d == senderDevice)
      {
        if p.id == senderId && p.devices[k] == senderDevice {
          continue;
        }
        ids := ids + {p.devices[k]};
      }
      assert p.devices[..|p.devices|] == p.devices;
      RequiredUsers(ps[..n], senderId, senderDevice);
      assert ps[..n + 1][..n] == ps[..n];
      AddUser(expected, Required(ps[..n], senderId, senderDevice), p, senderId, senderDevice);
      if |ids| > 0 {
        expected := expected[p.id := ids];
      }
    }
    assert ps[..|ps|] == ps;
  }

  /** Everything before position n passed and was ticked off. */
  ghost predicate PassedUpTo(envelopes: seq<Envelope>, n: nat, required: set<Destination>)
    requires n <= |envelopes|
  {
    KeysDistinct(envelopes[..n]) && Given(envelopes[..n]) <= required
  }

  lemma TickOff(envelopes: seq<Envelope>, n: nat, required: set<Destination>)
    requires n < |envelopes| && PassedUpTo(envelopes, n, required)
    requires (envelopes[n].userId, envelopes[n].deviceId) in required - Given(envelopes[..n])
    requires forall i :: 0 <= i < n ==> SeenKey(envelopes[i]) != SeenKey(envelopes[n])
    ensures PassedUpTo(envelopes, n + 1, required)
    ensures Given(envelopes[..n + 1]) == Given(envelopes[..n]) + {(envelopes[n].userId, envelopes[n].deviceId)}
  {
    assert envelopes[..n + 1] == envelopes[..n] + [envelopes[n]];
    GivenAppend(envelopes[..n], envelopes[n]);
  }

  function Dropped(expected: map<string, set<string>>, u: string, d: string): map<string, set<string>>
    requires u in expected
  {
    if expected[u] - {d} == {} then expected - {u} else expected[u := expected[u] - {d}]
  }

  lemma DroppedRepresents(expected: map<string, set<string>>, rest: set<Destination>, u: string, d: string)
    requires Represents(expected, rest) && u in expected && d in expected[u]
    ensures Represents(Dropped(expected, u, d), rest - {(u, d)})
  {
    var expected' := Dropped(expected, u, d);
    forall x: Destination
      ensures x in rest - {(u, d)} <==> x.0 in expected' && x.1 in expected'[x.0]
    {
      assert x in rest <==> x.0 in expected && x.1 in expected[x.0];
      assert x == (u, d) <==> x.0 == u && x.1 == d;
      if x.0 == u {
        assert x.1 in expected[u] - {d} <==> x.1 in expected[u] && x.1 != d;
        assert u in expected' ==> expected'[u] == expected[u] - {d};
      } else {
        assert x.0 in expected' <==> x.0 in expected;
      }
    }
  }

  function Target(e: Envelope): Destination {
    (e.userId, e.deviceId)
  }

  /** What each answer means: acceptance is exactness; a rejection names the first envelope that is a
      repeat or has no destination left, or precisely the destinations that were left out. */
  ghost predicate Explains(v: Verdict, envelopes: seq<Envelope>, required: set<Destination>) {
    match v
    case Accepted => Accepts(envelopes, required)
    case MissingDevices(m) => KeysDistinct(envelopes) && Given(envelopes) < required && m == required - Given(envelopes)
    case Duplicate(n) =>
      && n < |envelopes| && PassedUpTo(envelopes, n, required)
      && (exists i :: 0 <= i < n && SeenKey(envelopes[i]) == SeenKey(envelopes[n]))
    case NotParticipant(n) =>
      && n < |envelopes| && PassedUpTo(envelopes, n, required)
      && forall d :: (envelopes[n].userId, d) !in required - Given(envelopes[..n])
    case NotActiveDevice(n) =>
      && n < |envelopes| && PassedUpTo(envelopes, n, required)
      && Target(envelopes[n]) !in required - Given(envelopes[..n])
      && exists d :: (envelopes[n].userId, d) in required - Given(envelopes[..n])
  }

  /** A rejection is never wrong. */
  lemma ExplainedRejection(v: Verdict, envelopes: seq<Envelope>, required: set<Destination>)
    requires Explains(v, envelopes, required)
    ensures v.Accepted? <==> Accepts(envelopes, required)
  {
    match v {
      case Accepted =>
      case MissingDevices(_) =>
      case Duplicate(n) =>
        var i :| 0 <= i < n && SeenKey(envelopes[i]) == SeenKey(envelopes[n]);
        assert !KeysDistinct(envelopes);
      case NotParticipant(n) => NoDestinationRejects(envelopes, n, required);
      case NotActiveDevice(n) => NoDestinationRejects(envelopes, n, required);
    }
  }

  /** Second loop: walk the envelopes, tick off destinations, and reject anything unexpected. */
  method WalkEnvelopes(envelopes: seq<Envelope>, initial: map<string, set<string>>, ghost required: set<Destination>)
    returns (v: Verdict)
    requires Represents(initial, required)
    ensures Explains(v, envelopes, required)
  {
    var expected := initial;
    var seen: set<string> := {};
    for n := 0 to |envelopes|
      invariant seen == set e | e in envelopes[..n] :: SeenKey(e)
      invariant PassedUpTo(envelopes, n, required)
      invariant Represents(expected, required - Given(envelopes[..n]))
    {
      var env := envelopes[n];
      var key := SeenKey(env);
      if key in seen {
        RepeatRejects(envelopes, n);
        return Duplicate(n);
      }
      seen := seen + {key};
      ghost var rest := required - Given(envelopes[..n]);
      if env.userId !in expected {
        assert forall d :: (env.userId, d) in rest ==> (env.userId, d).0 in expected;
        return NotParticipant(n);
      }
      if env.deviceId !in expected[env.userId] {
        var other :| other in expected[env.userId];
        assert (env.userId, other) in rest;
        return NotActiveDevice(n);
      }
      KeyIsNew(envelopes, n);
      TickOff(envelopes, n, required);
      DroppedRepresents(expected, rest, env.userId, env.deviceId);
      assert rest - {Target(env)} == required - Given(envelopes[..n + 1]);
      assert envelopes[..n + 1] == envelopes[..n] + [env];
      expected := Dropped(expected, env.userId, env.deviceId);
    }
    assert envelopes[..|envelopes|] == envelopes;
    v := Conclude(expected, envelopes, required);
  }

  /** Anything still expected was left out. */
  method Conclude(expected: map<string, set<string>>, envelopes: seq<Envelope>, ghost required: set<Destination>)
    returns (v: Verdict)
    requires KeysDistinct(envelopes) && Given(envelopes) <= required
    requires Represents(expected, required - Given(envelopes))
    ensures Explains(v, envelopes, required)
  {
    ghost var rest := required - Given(envelopes);
    if expected == map[] {
      assert forall x :: x in rest ==> x.0 in expected;
      assert rest == {};
      assert forall x :: x in required && x !in Given(envelopes) ==> x in rest;
      return Accepted;
    }
    var u :| u in expected;
    var d :| d in expected[u];
    assert (u, d) in rest;
    var missing := set w, e | w in expected && e in expected[w] :: (w, e);
    assert forall x :: x in rest ==> x == (x.0, x.1) && x in missing;
    return MissingDevices(missing);
  }

  /** The whole check. */
  method AssertFanoutMatchesRoom(envelopes: seq<Envelope>, senderId: string, senderDevice: string, ps: seq<Participant>)
    returns (v: Verdict)
    requires forall i, j :: 0 <= i < j < |ps| ==> ps[i].id != ps[j].id
    ensures v.Accepted? <==> Accepts(envelopes, Required(ps, senderId, senderDevice))
    ensures Explains(v, envelopes, Required(ps, senderId, senderDevice))
  {
    var expected := BuildExpected(ps, senderId, senderDevice);
    v := WalkEnvelopes(envelopes, expected, Required(ps, senderId, senderDevice));
    ExplainedRejection(v, envelopes, Required(ps, senderId, senderDevice));
  }

  lemma KeyIsNew(envelopes: seq<Envelope>, n: nat)
    requires n < |envelopes|
    requires SeenKey(envelopes[n]) !in set e | e in envelopes[..n] :: SeenKey(e)
    ensures forall i :: 0 <= i < n ==> SeenKey(envelopes[i]) != SeenKey(envelopes[n])
  {
    assert forall i :: 0 <= i < n ==> envelopes[i] in envelopes[..n];
  }

  lemma RepeatRejects(envelopes: seq<Envelope>, n: nat)
    requires n < |envelopes|
    requires SeenKey(envelopes[n]) in set e | e in envelopes[..n] :: SeenKey(e)
    ensures exists i :: 0 <= i < n && SeenKey(envelopes[i]) == SeenKey(envelopes[n])
  {
    var e :| e in envelopes[..n] && SeenKey(e) == SeenKey(envelopes[n]);
    var i :| 0 <= i < n && envelopes[..n][i] == e;
    assert envelopes[i] == e;
  }

  lemma NoDestinationRejects(envelopes: seq<Envelope>, n: nat, required: set<Destination>)
    requires n < |envelopes|
    requires (envelopes[n].userId, envelopes[n].deviceId) !in required - Given(envelopes[..n])
    ensures !Accepts(envelopes, required)
  {
    var x := (envelopes[n].userId, envelopes[n].deviceId);
    assert envelopes[n] in envelopes && x in Given(envelopes);
    if x in Given(envelopes[..n]) {
      var e :| e in envelopes[..n] && (e.userId, e.deviceId) == x;
      var i :| 0 <= i < n && envelopes[..n][i] == e;
      assert envelopes[i] == e;
      assert SeenKey(envelopes[i]) == SeenKey(envelopes[n]);
    }
  }

  // Exactness in terms of destinations ------------------------------------------------------------

  /** No two destinations of the room share a joined key. */
  predicate KeysTellApart(required: set<Destination>) {
    forall x, y :: x in required && y in required && KeyOf(x) == KeyOf(y) ==> x == y
  }

  function KeyOf(x: Destination): string {
    Join(x.0, x.1)
  }

  /** Some list with each destination once. */
  lemma {:induction false} ListDestinations(required: set<Destination>) returns (envelopes: seq<Envelope>)
    ensures IsFanout(envelopes, required)
    decreases |required|
  {
    if required == {} {
      envelopes := [];
    } else {
      var x :| x in required;
      var rest := ListDestinations(required - {x});
      var e := Envelope(x.0, x.1, "");
      envelopes := rest + [e];
      GivenAppend(rest, e);
      forall i | 0 <= i < |rest| ensures Target(rest[i]) != x {
        assert rest[i] in rest;
        assert Target(rest[i]) in Given(rest);
      }
      assert required - {x} + {x} == required;
    }
  }

  lemma SomeKeysClash(envelopes: seq<Envelope>, x: Destination, y: Destination)
    requires x in Given(envelopes) && y in Given(envelopes) && x != y && KeyOf(x) == KeyOf(y)
    ensures !KeysDistinct(envelopes)
  {
    var e :| e in envelopes && x == (e.userId, e.deviceId);
    var f :| f in envelopes && y == (f.userId, f.deviceId);
    var i :| 0 <= i < |envelopes| && envelopes[i] == e;
    var j :| 0 <= j < |envelopes| && envelopes[j] == f;
    assert SeenKey(envelopes[i]) == SeenKey(envelopes[j]) && i != j;
    if i < j {
      assert SeenKey(envelopes[i]) == SeenKey(envelopes[j]);
    } else {
      assert SeenKey(envelopes[j]) == SeenKey(envelopes[i]);
    }
  }

  lemma ApartIsExact(envelopes: seq<Envelope>, required: set<Destination>)
    requires KeysTellApart(required)
    ensures Accepts(envelopes, required) <==> IsFanout(envelopes, required)
  {
    if IsFanout(envelopes, required) {
      forall i, j | 0 <= i < j < |envelopes| ensures SeenKey(envelopes[i]) != SeenKey(envelopes[j]) {
        assert envelopes[i] in envelopes && envelopes[j] in envelopes;
        var x, y := Target(envelopes[i]), Target(envelopes[j]);
        assert x in required && y in required && x != y;
        assert KeyOf(x) == SeenKey(envelopes[i]) && KeyOf(y) == SeenKey(envelopes[j]);
      }
    }
    if KeysDistinct(envelopes) {
      forall i, j | 0 <= i < j < |envelopes|
        ensures !(envelopes[i].userId == envelopes[j].userId && envelopes[i].deviceId == envelopes[j].deviceId)
      {
        assert SeenKey(envelopes[i]) != SeenKey(envelopes[j]);
      }
    }
  }

  /** The rooms for which the check is exact on every list are those whose joined destinations are
      pairwise distinct. */
  lemma ExactRooms(required: set<Destination>)
    ensures (forall envelopes :: Accepts(envelopes, required) <==> IsFanout(envelopes, required)) <==> KeysTellApart(required)
  {
    if KeysTellApart(required) {
      forall envelopes ensures Accepts(envelopes, required) <==> IsFanout(envelopes, required) {
        ApartIsExact(envelopes, required);
      }
    } else {
      var x, y :| x in required && y in required && KeyOf(x) == KeyOf(y) && x != y;
      var all := ListDestinations(required);
      SomeKeysClash(all, x, y);
      assert IsFanout(all, required) && !Accepts(all, required);
    }
  }

  /** Participants whose ids have no colon, which UUIDs do not, make such a room: the check accepts
      exactly the duplicate-free lists of the required set. */
  lemma FanoutIsExact(envelopes: seq<Envelope>, senderId: string, senderDevice: string, ps: seq<Participant>)
    requires forall p :: p in ps ==> ':' !in p.id
    ensures var required := Required(ps, senderId, senderDevice);
            KeysTellApart(required) && (Accepts(envelopes, required) <==> IsFanout(envelopes, required))
  {
    var required := Required(ps, senderId, senderDevice);
    RequiredUsers(ps, senderId, senderDevice);
    forall x, y | x in required && y in required && KeyOf(x) == KeyOf(y) ensures x == y {
      JoinInjective(x.0, x.1, y.0, y.1);
    }
    ApartIsExact(envelopes, required);
  }

  lemma {:induction false} TwoPositions(s: seq<Envelope>, e: Envelope)
    requires multiset(s)[e] >= 2
    ensures exists i, j :: 0 <= i < j < |s| && s[i] == e && s[j] == e
  {
    var n := |s| - 1;
    assert s == s[..n] + [s[n]];
    if s[n] == e {
      assert e in multiset(s[..n]);
      var i :| 0 <= i < n && s[..n][i] == e;
      assert s[i] == e && s[n] == e;
    } else {
      TwoPositions(s[..n], e);
      var i, j :| 0 <= i < j < n && s[..n][i] == e && s[..n][j] == e;
      assert s[i] == e && s[j] == e;
    }
  }

  lemma {:induction false} TwiceMeansTwo(s: seq<Envelope>, i: nat, j: nat)
    requires i < j < |s| && s[i] == s[j]
    ensures multiset(s)[s[i]] >= 2
  {
    assert s == s[..j] + [s[j]] + s[j + 1..];
    assert s[i] in s[..j];
  }

  lemma DistinctWhateverOrder(envelopes: seq<Envelope>, others: seq<Envelope>)
    requires multiset(envelopes) == multiset(others) && KeysDistinct(envelopes)
    ensures KeysDistinct(others)
  {
    forall i, j | 0 <= i < j < |others| ensures SeenKey(others[i]) != SeenKey(others[j]) {
      var e, f := others[i], others[j];
      assert e in multiset(others) && f in multiset(others);
      if e == f {
        TwiceMeansTwo(others, i, j);
        TwoPositions(envelopes, e);
      } else {
        var k :| 0 <= k < |envelopes| && envelopes[k] == e;
        var m :| 0 <= m < |envelopes| && envelopes[m] == f;
        assert k < m || m < k;
      }
    }
  }

  /** The order of the envelopes does not matter: a permutation is accepted exactly when the list is. */
  lemma OrderDoesNotMatter(envelopes: seq<Envelope>, others: seq<Envelope>, required: set<Destination>)
    requires multiset(envelopes) == multiset(others)
    ensures Accepts(envelopes, required) <==> Accepts(others, required)
  {
    forall e ensures e in envelopes <==> e in others {
      assert e in envelopes <==> e in multiset(envelopes);
      assert e in others <==> e in multiset(others);
    }
    assert Given(envelopes) == Given(others);
    if KeysDistinct(envelopes) {
      DistinctWhateverOrder(envelopes, others);
    }
    if KeysDistinct(others) {
      DistinctWhateverOrder(others, envelopes);
    }
  }

  /** With colons in the ids a complete, duplicate-free fan-out can be turned away as a duplicate. */
  lemma ColonsBreakTheCheck()
    ensures var ps := [Participant("a", ["b:c"]), Participant("a:b", ["c"])];
            var envelopes := [Envelope("a", "b:c", ""), Envelope("a:b", "c", "")];
            && DestinationsDistinct(envelopes) && Given(envelopes) == Required(ps, "s", "t")
            && !KeysDistinct(envelopes)
  {
    var p, q := Participant("a", ["b:c"]), Participant("a:b", ["c"]);
    var e, f := Envelope("a", "b:c", ""), Envelope("a:b", "c", "");
    assert SeenKey(e) == "a:b:c" == SeenKey(f);
    assert [e, f][0] == e && [e, f][1] == f;
    assert Destinations(p, "s", "t") == {("a", "b:c")} by {
      assert "b:c" in DevicesToReach(p, "s", "t");
    }
    assert Destinations(q, "s", "t") == {("a:b", "c")} by {
      assert "c" in DevicesToReach(q, "s", "t");
    }
    assert [p, q][..1] == [p] && [p][..0] == [];
    assert Required([p], "s", "t") == {("a", "b:c")};
    assert Required([p, q], "s", "t") == {("a", "b:c"), ("a:b", "c")};
    GivenAppend([], e);
    GivenAppend([e], f);
    assert [] + [e] == [e] && [e] + [f] == [e, f];
  }

  // Acknowledgement -------------------------------------------------------------------------------

  datatype Stored = Stored(id: nat, deviceId: string, delivered: bool)

  predicate Acknowledges(e: Stored, deviceId: string, ids: seq<nat>) {
    e.id in ids && e.deviceId == deviceId && !e.delivered
  }

  /** A device row as the ownership check reads it. */
  datatype Owner = Owner(userId: string, revoked: bool)

  datatype AckError = NotYourDevice

  class Mailbox {
    var envelopes: seq<Stored>
    var devices: map<string, Owner>

    constructor (initial: seq<Stored>, owners: map<string, Owner>)
      ensures envelopes == initial && devices == owners
    {
      envelopes, devices := initial, owners;
    }

    predicate Owns(userId: string, deviceId: string)
      reads this
    {
      deviceId in devices && devices[deviceId].userId == userId && !devices[deviceId].revoked
    }

    /** An empty request is answered at once. Otherwise the caller must own the device and it must be
        active; then exactly the named, undelivered envelopes of that device become delivered, and
        their number is returned. */
    method AckEnvelopes(userId: string, deviceId: string, ids: seq<nat>) returns (r: Result<nat, AckError>)
      modifies this`envelopes
      ensures r.Failure? <==>
              ids != [] && !(deviceId in devices && devices[deviceId].userId == userId && !devices[deviceId].revoked)
      ensures envelopes == if r.Success? then Acked(old(envelopes), deviceId, ids) else old(envelopes)
      ensures r.Success? ==> r.value == Pending(old(envelopes), deviceId, ids)
      ensures r.Success? ==>
                && |envelopes| == |old(envelopes)|
                && forall k :: 0 <= k < |envelopes| ==>
                     var e := old(envelopes)[k];
                     envelopes[k] == Stored(e.id, e.deviceId, e.delivered || (e.deviceId == deviceId && e.id in ids))
    {
      if |ids| == 0 {
        NothingNamed(envelopes, deviceId);
        return Success(0);
      }
      if !Owns(userId, deviceId) {
        return Failure(NotYourDevice);
      }
      var before, updated := envelopes, 0;
      var done := [];
      for n := 0 to |before|
        invariant done == Acked(before[..n], deviceId, ids)
        invariant updated == Pending(before[..n], deviceId, ids)
      {
        assert before[..n + 1][..n] == before[..n];
        if Acknowledges(before[n], deviceId, ids) {
          done := done + [before[n].(delivered := true)];
          updated := updated + 1;
        } else {
          done := done + [before[n]];
        }
      }
      assert before[..|before|] == before;
      envelopes := done;
      return Success(updated);
    }
  }

  function Acked(envelopes: seq<Stored>, deviceId: string, ids: seq<nat>): (r: seq<Stored>)
    ensures |r| == |envelopes|
    ensures forall k :: 0 <= k < |r| ==>
              r[k] == envelopes[k].(delivered := envelopes[k].delivered || Acknowledges(envelopes[k], deviceId, ids))
  {
    if envelopes == [] then []
    else
      var last := envelopes[|envelopes| - 1];
      Acked(envelopes[..|envelopes| - 1], deviceId, ids)
      + [if Acknowledges(last, deviceId, ids) then last.(delivered := true) else last]
  }

  /** How many envelopes an acknowledgement would mark. */
  function Pending(envelopes: seq<Stored>, deviceId: string, ids: seq<nat>): nat {
    if envelopes == [] then 0
    else
      Pending(envelopes[..|envelopes| - 1], deviceId, ids)
      + if Acknowledges(envelopes[|envelopes| - 1], deviceId, ids) then 1 else 0
  }

  lemma NothingNamed(envelopes: seq<Stored>, deviceId: string)
    ensures Acked(envelopes, deviceId, []) == envelopes && Pending(envelopes, deviceId, []) == 0
  {
    if envelopes != [] {
      NothingNamed(envelopes[..|envelopes| - 1], deviceId);
    }
  }

  /** Acknowledging again marks nothing and changes nothing. */
  lemma {:induction false} AckTwice(envelopes: seq<Stored>, deviceId: string, ids: seq<nat>)
    ensures var once := Acked(envelopes, deviceId, ids);
            Pending(once, deviceId, ids) == 0 && Acked(once, deviceId, ids) == once
  {
    if envelopes == [] {
    } else {
      var n := |envelopes| - 1;
      AckTwice(envelopes[..n], deviceId, ids);
      assert Acked(envelopes, deviceId, ids)[..n] == Acked(envelopes[..n], deviceId, ids);
    }
  }
}
