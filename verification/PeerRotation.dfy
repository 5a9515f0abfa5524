/** Which peer gets the next task: discovery, benching of unreachable peers and the
    round-robin pick. Times are in seconds. */
module PeerRotation {
  import opened Strings

  const BENCH_COOLDOWN := 10
  const COUNTER_RANGE := 0x1_0000_0000_0000_0000

  /** The value of a 64-bit counter that has been counted up to at most its range. */
  function Wrapped(n: nat): nat {
    if n == COUNTER_RANGE then 0 else n
  }

  datatype Peer = Peer(nodeId: string, baseUrl: string)

  /** The node's own address, and how an address becomes a base URL ("" if it cannot). */
  datatype Config = Config(nodeId: string, baseUrl: string -> string)

  // ----- the list of peers -----

  /** The address, trimmed, can be dispatched to. */
  predicate Usable(cfg: Config, addr: string) {
    var canonical := Trim(addr);
    canonical != "" && canonical[0] != '@' && cfg.baseUrl(canonical) != ""
  }

  ghost predicate UniqueIds(peers: seq<Peer>) {
    forall i, j :: 0 <= i < j < |peers| ==> peers[i].nodeId != peers[j].nodeId
  }

  ghost predicate Contains(peers: seq<Peer>, id: string) {
    exists i :: 0 <= i < |peers| && peers[i].nodeId == id
  }

  /** An address that is usable stands for the peer. */
  ghost predicate StandsFor(cfg: Config, addrs: seq<string>, id: string) {
    exists i :: 0 <= i < |addrs| && Usable(cfg, addrs[i]) && Trim(addrs[i]) == id
  }

  ghost predicate IsPeerList(cfg: Config, addrs: seq<string>, peers: seq<Peer>) {
    && UniqueIds(peers)
    && (forall i :: 0 <= i < |peers| ==> peers[i].baseUrl == cfg.baseUrl(peers[i].nodeId))
    && (forall id :: Contains(peers, id) <==> StandsFor(cfg, addrs, id))
  }

  lemma ContainsMore(peers: seq<Peer>, p: Peer, id: string)
    ensures Contains(peers + [p], id) <==> Contains(peers, id) || p.nodeId == id
  {
    assert (peers + [p])[|peers|] == p;
    assert forall i :: 0 <= i < |peers| ==> (peers + [p])[i] == peers[i];
  }

  lemma StandsForMore(cfg: Config, addrs: seq<string>, a: string, id: string)
    ensures StandsFor(cfg, addrs + [a], id) <==> StandsFor(cfg, addrs, id) || (Usable(cfg, a) && Trim(a) == id)
  {
    assert (addrs + [a])[|addrs|] == a;
    assert forall i :: 0 <= i < |addrs| ==> (addrs + [a])[i] == addrs[i];
  }

  lemma StandsForMeans(cfg: Config, addrs: seq<string>, id: string)
    ensures StandsFor(cfg, addrs, id) <==>
      (exists a :: a in addrs && Trim(a) == id) && id != "" && id[0] != '@' && cfg.baseUrl(id) != ""
  {
    if a :| a in addrs && Trim(a) == id {
      var i :| 0 <= i < |addrs| && addrs[i] == a;
      assert Usable(cfg, addrs[i]) <==> id != "" && id[0] != '@' && cfg.baseUrl(id) != "";
    }
  }

  /** One address more. */
  method AddPeer(cfg: Config, ghost addrs: seq<string>, a: string, seen: set<string>, peers: seq<Peer>)
    returns (seen': set<string>, peers': seq<Peer>)
    requires IsPeerList(cfg, addrs, peers) && forall id :: id in seen <==> Contains(peers, id)
    ensures IsPeerList(cfg, addrs + [a], peers') && forall id :: id in seen' <==> Contains(peers', id)
  {
    seen', peers' := seen, peers;
    forall id { StandsForMore(cfg, addrs, a, id); }
    var canonical := Trim(a);
    if canonical == "" || canonical[0] == '@' {
      return;
    }
    if canonical in seen {
      return;
    }
    var url := cfg.baseUrl(canonical);
    if url == "" {
      return;
    }
    forall id { ContainsMore(peers, Peer(canonical, url), id); }
    seen', peers' := seen + {canonical}, peers + [Peer(canonical, url)];
  }

  /** Discovered addresses first, the node itself last; every usable one exactly once. */
  method BuildPeers(cfg: Config, raw: seq<string>) returns (peers: seq<Peer>)
    ensures IsPeerList(cfg, raw + [cfg.nodeId], peers)
    ensures forall id :: Contains(peers, id) <==>
      (exists a :: a in raw + [cfg.nodeId] && Trim(a) == id) && id != "" && id[0] != '@' && cfg.baseUrl(id) != ""
  {
    var seen: set<string> := {};
    peers := [];
    for i := 0 to |raw|
      invariant IsPeerList(cfg, raw[..i], peers) && forall id :: id in seen <==> Contains(peers, id)
    {
      seen, peers := AddPeer(cfg, raw[..i], raw[i], seen, peers);
      assert raw[..i + 1] == raw[..i] + [raw[i]];
    }
    assert raw[..|raw|] == raw;
    seen, peers := AddPeer(cfg, raw, cfg.nodeId, seen, peers);
    forall id ensures StandsFor(cfg, raw + [cfg.nodeId], id) <==>
      (exists a :: a in raw + [cfg.nodeId] && Trim(a) == id) && id != "" && id[0] != '@' && cfg.baseUrl(id) != ""
    {
      StandsForMeans(cfg, raw + [cfg.nodeId], id);
    }
  }

  // ----- benching -----

  type Bench = map<string, int>

  function Swept(bench: Bench, now: int): Bench {
    map id | id in bench && now < bench[id] :: bench[id]
  }

  function Unbenched(bench: Bench, peers: seq<Peer>): seq<Peer> {
    if peers == [] then []
    else
      var p := peers[|peers| - 1];
      Unbenched(bench, peers[..|peers| - 1]) + if p.nodeId in bench then [] else [p]
  }

  /** If every peer is benched, the list stays as it is. */
  function Healthy(bench: Bench, peers: seq<Peer>): seq<Peer> {
    if Unbenched(bench, peers) == [] then peers else Unbenched(bench, peers)
  }

  lemma {:induction false} UnbenchedContains(bench: Bench, peers: seq<Peer>, id: string)
    ensures Contains(Unbenched(bench, peers), id) <==> Contains(peers, id) && id !in bench
  {
    if peers != [] {
      var front, p := peers[..|peers| - 1], peers[|peers| - 1];
      UnbenchedContains(bench, front, id);
      assert peers == front + [p];
      ContainsMore(front, p, id);
      ContainsMore(Unbenched(bench, front), p, id);
      assert p.nodeId in bench ==> Unbenched(bench, peers) == Unbenched(bench, front);
    }
  }

  lemma {:induction false} UnbenchedUnique(bench: Bench, peers: seq<Peer>)
    requires UniqueIds(peers)
    ensures UniqueIds(Unbenched(bench, peers))
  {
    if peers != [] {
      var front, p := peers[..|peers| - 1], peers[|peers| - 1];
      UnbenchedUnique(bench, front);
      UnbenchedContains(bench, front, p.nodeId);
      assert !Contains(front, p.nodeId);
      assert forall i :: 0 <= i < |Unbenched(bench, front)| ==> Unbenched(bench, front)[i].nodeId != p.nodeId;
    }
  }

  class Loop {
    const cfg: Config
    var counter: nat
    var bench: Bench

    constructor (cfg: Config)
      ensures this.cfg == cfg && counter == 0 && bench == map[]
    {
      this.cfg := cfg;
      counter, bench := 0, map[];
    }

    method BenchPeer(id: string, now: int)
      modifies `bench
      ensures bench == if id == cfg.nodeId then old(bench) else old(bench)[id := now + BENCH_COOLDOWN]
    {
      if id == cfg.nodeId {
        return;
      }
      bench := bench[id := now + BENCH_COOLDOWN];
    }

    method HealthyPeers(peers: seq<Peer>, now: int) returns (out: seq<Peer>)
      modifies `bench
      ensures bench == Swept(old(bench), now) && out == Healthy(bench, peers)
    {
      var ids := bench.Keys;
      while ids != {}
        invariant bench.Keys <= old(bench).Keys && ids <= bench.Keys
        invariant forall id :: id in bench ==> bench[id] == old(bench)[id]
        invariant forall id :: id in old(bench) ==> (id in bench <==> id in ids || now < old(bench)[id])
        decreases ids
      {
        var id :| id in ids;
        if !(now < bench[id]) {
          bench := bench - {id};
        }
        ids := ids - {id};
      }
      assert bench == Swept(old(bench), now);
      out := [];
      for i := 0 to |peers|
        invariant out == Unbenched(bench, peers[..i]) && bench == Swept(old(bench), now)
      {
        assert peers[..i + 1][..i] == peers[..i];
        if peers[i].nodeId in bench {
          continue;
        }
        out := out + [peers[i]];
      }
      assert peers[..|peers|] == peers;
      if out == [] {
        return peers;
      }
    }

    /** The counter is a 64-bit word. */
    method Pick(peers: seq<Peer>) returns (p: Peer)
      requires |peers| > 0 && counter < COUNTER_RANGE
      modifies `counter
      ensures p == peers[old(counter) % |peers|]
      ensures counter == (old(counter) + 1) % COUNTER_RANGE
    {
      p := peers[counter % |peers|];
      counter := if counter + 1 == COUNTER_RANGE then 0 else counter + 1;
    }
  }

  // ----- over any run of ticks -----

  /** A tick takes its list at its start; a failed dispatch benches its peer. */
  datatype Step = Tick(raw: seq<string>, peers: seq<Peer>, now: int) | BenchStep(id: string, now: int)

  datatype State = State(bench: Bench, list: seq<Peer>, clock: int)

  ghost predicate Enabled(cfg: Config, s: State, step: Step) {
    s.clock <= step.now && (step.Tick? ==> IsPeerList(cfg, step.raw + [cfg.nodeId], step.peers))
  }

  ghost function Next(cfg: Config, s: State, step: Step): State {
    if !Enabled(cfg, s, step) then s
    else match step
      case Tick(raw, peers, now) => State(Swept(s.bench, now), Healthy(Swept(s.bench, now), peers), now)
      case BenchStep(id, now) => State(if id == cfg.nodeId then s.bench else s.bench[id := now + BENCH_COOLDOWN],
                                       s.list, now)
  }

  ghost function After(cfg: Config, steps: seq<Step>): State {
    if steps == [] then State(map[], [], 0) else Next(cfg, After(cfg, steps[..|steps| - 1]), steps[|steps| - 1])
  }

  /** The node's own address needs no trimming, so it is recognised when it fails. */
  predicate SelfIsUsable(cfg: Config) {
    Usable(cfg, cfg.nodeId) && Trim(cfg.nodeId) == cfg.nodeId
  }

  lemma {:induction false} SelfIsNeverBenched(cfg: Config, steps: seq<Step>)
    ensures cfg.nodeId !in After(cfg, steps).bench
  {
    if steps != [] { SelfIsNeverBenched(cfg, steps[..|steps| - 1]); }
  }

  /** A tick's list has unique ids and always contains the node itself, so benching never
      empties it; no expired bench entry survives. */
  lemma TickKeepsSelf(cfg: Config, steps: seq<Step>, tick: Step)
    requires SelfIsUsable(cfg) && tick.Tick? && Enabled(cfg, After(cfg, steps), tick)
    ensures var s := Next(cfg, After(cfg, steps), tick);
      && UniqueIds(s.list) && Contains(s.list, cfg.nodeId)
      && (forall id :: id in s.bench ==> s.bench[id] > tick.now)
      && (forall id :: Contains(s.list, id) <==> StandsFor(cfg, tick.raw + [cfg.nodeId], id) && id !in s.bench)
  {
    var s := Next(cfg, After(cfg, steps), tick);
    SelfIsNeverBenched(cfg, steps);
    StandsForMore(cfg, tick.raw, cfg.nodeId, cfg.nodeId);
    forall id ensures Contains(Unbenched(s.bench, tick.peers), id) <==> Contains(tick.peers, id) && id !in s.bench {
      UnbenchedContains(s.bench, tick.peers, id);
    }
    UnbenchedUnique(s.bench, tick.peers);
  }

  /** A node whose address is not usable is in no list. */
  lemma UnusableSelfIsAbsent(cfg: Config, addrs: seq<string>, peers: seq<Peer>)
    requires IsPeerList(cfg, addrs, peers) && !Usable(cfg, cfg.nodeId)
    ensures !Contains(peers, Trim(cfg.nodeId))
  {
    assert Contains(peers, Trim(cfg.nodeId)) ==> StandsFor(cfg, addrs, Trim(cfg.nodeId));
  }

  /** A node whose address carries white space can be benched, and then its own next tick
      drops it, unless it is alone. */
  lemma PaddedSelfCanBeDropped(cfg: Config, raw: seq<string>, peers: seq<Peer>, other: string)
    requires IsPeerList(cfg, raw + [cfg.nodeId], peers) && Trim(cfg.nodeId) != cfg.nodeId
    requires Contains(peers, other) && other != Trim(cfg.nodeId)
    ensures !Contains(After(cfg, [BenchStep(Trim(cfg.nodeId), 0), Tick(raw, peers, 1)]).list, Trim(cfg.nodeId))
  {
    var bench, tick := BenchStep(Trim(cfg.nodeId), 0), Tick(raw, peers, 1);
    var one, two := [bench], [bench, tick];
    assert one[..|one| - 1] == [] && two[..|two| - 1] == one;
    assert After(cfg, []) == State(map[], [], 0);
    var s := Next(cfg, After(cfg, []), bench);
    assert After(cfg, one) == s && After(cfg, two) == Next(cfg, s, tick);
    UnbenchedContains(Swept(s.bench, 1), peers, other);
    UnbenchedContains(Swept(s.bench, 1), peers, Trim(cfg.nodeId));
  }

  // ----- when the node is always in its own list -----

  ghost predicate AlwaysListed(cfg: Config) {
    forall steps, tick: Step :: tick.Tick? && Enabled(cfg, After(cfg, steps), tick) ==>
      Contains(Next(cfg, After(cfg, steps), tick).list, Trim(cfg.nodeId))
  }

  /** No other address can be dispatched to. */
  ghost predicate IsAlone(cfg: Config) {
    forall a :: Usable(cfg, a) ==> Trim(a) == Trim(cfg.nodeId)
  }

  lemma AloneIsListed(cfg: Config, s: State, tick: Step)
    requires Usable(cfg, cfg.nodeId) && IsAlone(cfg) && tick.Tick? && Enabled(cfg, s, tick)
    ensures Contains(Next(cfg, s, tick).list, Trim(cfg.nodeId))
  {
    StandsForMore(cfg, tick.raw, cfg.nodeId, Trim(cfg.nodeId));
    var left := Unbenched(Swept(s.bench, tick.now), tick.peers);
    if left != [] {
      var id := left[0].nodeId;
      UnbenchedContains(Swept(s.bench, tick.now), tick.peers, id);
      assert Contains(left, id) && StandsFor(cfg, tick.raw + [cfg.nodeId], id);
    }
  }

  lemma UnusableIsNotListed(cfg: Config)
    requires !Usable(cfg, cfg.nodeId)
    ensures !AlwaysListed(cfg)
  {
    var tick := Tick([], [], 0);
    assert [] + [cfg.nodeId] == [cfg.nodeId];
    assert After(cfg, []) == State(map[], [], 0);
    assert Enabled(cfg, After(cfg, []), tick) && Next(cfg, After(cfg, []), tick).list == [];
  }

  /** Two different addresses make a list of two. */
  lemma ListOfTwo(cfg: Config, a: string, b: string)
    requires Usable(cfg, a) && Usable(cfg, b) && Trim(a) != Trim(b)
    ensures IsPeerList(cfg, [a] + [b], [Peer(Trim(a), cfg.baseUrl(Trim(a))), Peer(Trim(b), cfg.baseUrl(Trim(b)))])
  {
    var peers := [Peer(Trim(a), cfg.baseUrl(Trim(a))), Peer(Trim(b), cfg.baseUrl(Trim(b)))];
    forall id ensures Contains(peers, id) <==> StandsFor(cfg, [a] + [b], id) {
      StandsForMore(cfg, [a], b, id);
      StandsForMore(cfg, [], a, id);
      assert [] + [a] == [a];
      assert peers[0].nodeId == Trim(a) && peers[1].nodeId == Trim(b);
    }
  }

  lemma PaddedIsNotListed(cfg: Config, other: string)
    requires Usable(cfg, cfg.nodeId) && Trim(cfg.nodeId) != cfg.nodeId
    requires Usable(cfg, other) && Trim(other) != Trim(cfg.nodeId)
    ensures !AlwaysListed(cfg)
  {
    var self := Trim(cfg.nodeId);
    var peers := [Peer(Trim(other), cfg.baseUrl(Trim(other))), Peer(self, cfg.baseUrl(self))];
    ListOfTwo(cfg, other, cfg.nodeId);
    assert peers[0].nodeId == Trim(other);
    PaddedSelfCanBeDropped(cfg, [other], peers, Trim(other));
    var bench, tick := BenchStep(self, 0), Tick([other], peers, 1);
    var two := [bench, tick];
    assert two[..|two| - 1] == [bench] && [bench][..0] == [];
    assert After(cfg, [bench]) == Next(cfg, After(cfg, []), bench) && After(cfg, []).clock == 0;
    assert Enabled(cfg, After(cfg, [bench]), tick) && After(cfg, two) == Next(cfg, After(cfg, [bench]), tick);
  }

  /** Every tick of every run lists the node, exactly when its address is usable and needs no
      trimming, or no other address is usable. */
  lemma AlwaysListedExactlyWhen(cfg: Config)
    ensures AlwaysListed(cfg) <==> SelfIsUsable(cfg) || (Usable(cfg, cfg.nodeId) && IsAlone(cfg))
  {
    if !Usable(cfg, cfg.nodeId) {
      UnusableIsNotListed(cfg);
    } else if SelfIsUsable(cfg) {
      forall steps, tick: Step | tick.Tick? && Enabled(cfg, After(cfg, steps), tick)
        ensures Contains(Next(cfg, After(cfg, steps), tick).list, Trim(cfg.nodeId))
      {
        TickKeepsSelf(cfg, steps, tick);
      }
    } else if IsAlone(cfg) {
      forall steps, tick: Step | tick.Tick? && Enabled(cfg, After(cfg, steps), tick)
        ensures Contains(Next(cfg, After(cfg, steps), tick).list, Trim(cfg.nodeId))
      {
        AloneIsListed(cfg, After(cfg, steps), tick);
      }
    } else {
      var other :| Usable(cfg, other) && Trim(other) != Trim(cfg.nodeId);
      PaddedIsNotListed(cfg, other);
    }
  }

  // ----- a benched peer is skipped -----

  /** Until its cooldown ends, a benched peer stays benched at least that long. */
  lemma {:induction false} BenchLasts(cfg: Config, steps: seq<Step>, i: nat)
    requires i < |steps| && steps[i].BenchStep? && steps[i].id != cfg.nodeId
    requires Enabled(cfg, After(cfg, steps[..i]), steps[i])
    requires After(cfg, steps).clock < steps[i].now + BENCH_COOLDOWN
    ensures steps[i].id in After(cfg, steps).bench
    ensures After(cfg, steps).bench[steps[i].id] >= steps[i].now + BENCH_COOLDOWN
    ensures After(cfg, steps).clock >= steps[i].now
  {
    var n := |steps| - 1;
    if i < n {
      assert steps[..n][..i] == steps[..i] && steps[..n][i] == steps[i];
      BenchLasts(cfg, steps[..n], i);
    } else {
      assert steps[..n] == steps[..i];
    }
  }

  /** A peer benched at some time is not in the list of any tick that starts before its
      cooldown ends. */
  lemma BenchedPeerIsSkipped(cfg: Config, steps: seq<Step>, i: nat, tick: Step)
    requires SelfIsUsable(cfg) && i < |steps| && steps[i].BenchStep? && steps[i].id != cfg.nodeId
    requires Enabled(cfg, After(cfg, steps[..i]), steps[i])
    requires tick.Tick? && Enabled(cfg, After(cfg, steps), tick) && tick.now < steps[i].now + BENCH_COOLDOWN
    ensures !Contains(Next(cfg, After(cfg, steps), tick).list, steps[i].id)
  {
    BenchLasts(cfg, steps, i);
    TickKeepsSelf(cfg, steps, tick);
  }

  // ----- round robin -----

  /** How many of the m picks from counter value c on hit position r of n. */
  function Hits(c: nat, m: nat, n: nat, r: nat): nat
    requires n > 0
  {
    if m == 0 then 0 else Hits(c, m - 1, n, r) + if (c + m - 1) % n == r then 1 else 0
  }

  lemma ModIs(x: nat, q: nat, r: nat, n: nat)
    requires 0 < n && r < n && x == q * n + r
    ensures x % n == r
  {
    var d: int, m: int := x / n - q, n;
    assert d * m == r - x % n;
    assert d > 0 ==> d * m >= m;
    assert d < 0 ==> d * m <= -m;
  }

  lemma ModShift(x: nat, n: nat)
    requires n > 0
    ensures (x + n) % n == x % n
  {
    assert x + n == (x / n + 1) * n + x % n;
    ModIs(x + n, x / n + 1, x % n, n);
  }

  lemma {:induction false} HitsSplit(c: nat, a: nat, b: nat, n: nat, r: nat)
    requires n > 0
    ensures Hits(c, a + b, n, r) == Hits(c, a, n, r) + Hits(c + a, b, n, r)
  {
    if b > 0 { HitsSplit(c, a, b - 1, n, r); }
  }

  lemma {:induction false} HitsFromZero(m: nat, n: nat, r: nat)
    requires m <= n && r < n && n > 0
    ensures Hits(0, m, n, r) == if r < m then 1 else 0
  {
    if m > 0 {
      HitsFromZero(m - 1, n, r);
      ModIs(m - 1, 0, m - 1, n);
    }
  }

  /** Any n picks in a row hit every position once. */
  lemma {:induction false} OneRound(c: nat, n: nat, r: nat)
    requires n > 0 && r < n
    ensures Hits(c, n, n, r) == 1
  {
    if c == 0 {
      HitsFromZero(n, n, r);
    } else {
      OneRound(c - 1, n, r);
      HitsSplit(c - 1, 1, n, n, r);
      HitsSplit(c - 1, n, 1, n, r);
      ModShift(c - 1, n);
      assert Hits(c - 1, 1, n, r) == if (c - 1) % n == r then 1 else 0;
      assert Hits(c - 1 + n, 1, n, r) == if (c - 1 + n) % n == r then 1 else 0;
    }
  }

  function Rounds(k: nat, n: nat): nat {
    if k == 0 then 0 else Rounds(k - 1, n) + n
  }

  lemma {:induction false} RoundsAreProducts(k: nat, n: nat)
    ensures Rounds(k, n) == k * n
  {
    if k > 0 {
      RoundsAreProducts(k - 1, n);
      assert k * n == (k - 1) * n + n;
    }
  }

  lemma {:induction false} EveryRoundHits(c: nat, k: nat, n: nat, r: nat)
    requires n > 0 && r < n
    ensures Hits(c, Rounds(k, n), n, r) == k
  {
    if k > 0 {
      EveryRoundHits(c, k - 1, n, r);
      HitsSplit(c, Rounds(k - 1, n), n, n, r);
      OneRound(c + Rounds(k - 1, n), n, r);
    }
  }

  /** k rounds hit each of n positions exactly k times. */
  lemma RotationIsFair(c: nat, k: nat, n: nat, r: nat)
    requires n > 0 && r < n
    ensures Hits(c, k * n, n, r) == k
  {
    EveryRoundHits(c, k, n, r);
    RoundsAreProducts(k, n);
  }

  method PickMany(l: Loop, peers: seq<Peer>, count: nat, ghost r: nat) returns (picks: seq<Peer>)
    requires UniqueIds(peers) && r < |peers| && l.counter < COUNTER_RANGE && l.counter + count <= COUNTER_RANGE
    modifies l`counter
    ensures l.counter == Wrapped(old(l.counter) + count) && |picks| == count
    ensures CountOf(picks, peers[r]) == Hits(old(l.counter), count, |peers|, r)
  {
    picks := [];
    for i := 0 to count
      invariant l.counter == Wrapped(old(l.counter) + i) && |picks| == i
      invariant CountOf(picks, peers[r]) == Hits(old(l.counter), i, |peers|, r)
    {
      var c := l.counter;
      var p := l.Pick(peers);
      CountMore(picks, p, peers[r]);
      assert p == peers[r] <==> c % |peers| == r;
      picks := picks + [p];
    }
  }

  /** k rounds of picks from an unchanged list give each of its peers exactly k tasks, as
      long as the counter does not wrap. */
  method PickRounds(l: Loop, peers: seq<Peer>, k: nat, ghost r: nat) returns (picks: seq<Peer>)
    requires UniqueIds(peers) && r < |peers| && l.counter < COUNTER_RANGE && l.counter + k * |peers| <= COUNTER_RANGE
    modifies l`counter
    ensures CountOf(picks, peers[r]) == k
  {
    RotationIsFair(l.counter, k, |peers|, r);
    picks := PickMany(l, peers, k * |peers|, r);
  }

  function CountOf(picks: seq<Peer>, p: Peer): nat {
    if picks == [] then 0 else CountOf(picks[..|picks| - 1], p) + if picks[|picks| - 1] == p then 1 else 0
  }

  lemma CountMore(picks: seq<Peer>, p: Peer, q: Peer)
    ensures CountOf(picks + [p], q) == CountOf(picks, q) + if p == q then 1 else 0
  {
    assert (picks + [p])[..|picks|] == picks;
  }
}
