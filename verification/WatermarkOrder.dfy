/** When the order in which observations are processed does not matter, and when a dropped
    observation stays dropped. */
module WatermarkOrder {
  import opened Options
  import opened Watermark

  // ----- who displaces whom -----

  /** `next` replaces `cur` when it comes after it. */
  predicate Displaces(parse: Parser, cur: Observation, next: Observation) {
    match OrderableGreater(parse, cur.watermark, next.watermark)
    case Some(greater) => greater
    case None => next.order > cur.order
  }

  /** The row stores the value of the observation. */
  predicate Stores(row: Row, o: Observation) {
    row.advancedAt.Some? && row.watermark == o.watermark && row.runAt == Some(o.order)
  }

  /** Observations that can move the watermark, with pairwise different values. */
  ghost predicate Distinct(xs: set<Observation>) {
    && (forall a :: a in xs ==> Counts(a))
    && (forall a, b :: a in xs && b in xs && a.watermark == b.watermark ==> a == b)
  }

  ghost predicate From(os: seq<Observation>, xs: set<Observation>) {
    forall i :: 0 <= i < |os| ==> os[i] in xs
  }

  lemma FirstIsStored(parse: Parser, o: Observation)
    requires Counts(o)
    ensures Stores(Contract(parse, EMPTY, o), o)
  {
  }

  lemma NextIsStored(parse: Parser, row: Row, x: Observation, o: Observation)
    requires Stores(row, x) && Counts(o) && Counts(x) && (o.watermark == x.watermark ==> o == x)
    ensures Stores(Contract(parse, row, o), if o != x && Displaces(parse, x, o) then o else x)
  {
  }

  // ----- two values -----

  /** Two different values end alike in both orders exactly when one of them displaces the
      other and not the other way round. */
  lemma TwoEndAlikeExactlyWhen(parse: Parser, a: Observation, b: Observation)
    requires Counts(a) && Counts(b) && a.watermark != b.watermark
    ensures Replay(parse, [a, b]).watermark == Replay(parse, [b, a]).watermark <==>
      Displaces(parse, a, b) != Displaces(parse, b, a)
  {
    ReplayOfTwo(parse, a, b);
    ReplayOfTwo(parse, b, a);
  }

  // ----- any number of values -----

  /** One of two displaces the other, and that is transitive. */
  ghost predicate Linear(parse: Parser, xs: set<Observation>) {
    && (forall a, b :: a in xs && b in xs && a != b ==> Displaces(parse, a, b) != Displaces(parse, b, a))
    && Transitive(parse, xs)
  }

  /** Streams over the observations end alike in whatever order they are processed. */
  ghost predicate OrderFree(parse: Parser, xs: set<Observation>) {
    forall os, os' :: From(os, xs) && multiset(os) == multiset(os') ==>
      Replay(parse, os).watermark == Replay(parse, os').watermark
  }

  /** The observation is in the stream and displaces all others of it. */
  ghost predicate IsTop(parse: Parser, os: seq<Observation>, x: Observation) {
    x in os && forall i :: 0 <= i < |os| && os[i] != x ==> Displaces(parse, os[i], x)
  }

  lemma TopMore(parse: Parser, xs: set<Observation>, os: seq<Observation>, x: Observation, o: Observation)
    requires Linear(parse, xs) && From(os + [o], xs) && IsTop(parse, os, x)
    ensures IsTop(parse, os + [o], if o != x && Displaces(parse, x, o) then o else x)
  {
    var all := os + [o];
    assert x in xs by { var i :| 0 <= i < |os| && os[i] == x; assert all[i] == x; }
    assert all[|os|] == o;
    var y := if o != x && Displaces(parse, x, o) then o else x;
    forall i | 0 <= i < |all| && all[i] != y ensures Displaces(parse, all[i], y) {
      if i < |os| {
        assert all[i] == os[i];
        if y == o && os[i] != x { assert Displaces(parse, os[i], x); }
      }
    }
  }

  /** What is stored in the end displaces everything else in the stream. */
  lemma {:induction false} TopIsStored(parse: Parser, xs: set<Observation>, os: seq<Observation>)
    returns (x: Observation)
    requires Distinct(xs) && Linear(parse, xs) && From(os, xs) && os != []
    ensures IsTop(parse, os, x) && Stores(Replay(parse, os), x)
  {
    var front, o := os[..|os| - 1], os[|os| - 1];
    assert os == front + [o];
    if front == [] {
      x := o;
      assert Replay(parse, front) == EMPTY;
      FirstIsStored(parse, o);
    } else {
      var y := TopIsStored(parse, xs, front);
      var i :| 0 <= i < |front| && front[i] == y;
      assert os[i] == y;
      TopMore(parse, xs, front, y, o);
      NextIsStored(parse, Replay(parse, front), y, o);
      x := if o != y && Displaces(parse, y, o) then o else y;
    }
  }

  lemma InPermutation(os: seq<Observation>, os': seq<Observation>, x: Observation)
    requires multiset(os) == multiset(os')
    ensures x in os <==> x in os'
  {
    assert x in multiset(os) <==> x in multiset(os');
  }

  lemma LinearIsOrderFree(parse: Parser, xs: set<Observation>, os: seq<Observation>, os': seq<Observation>)
    requires Distinct(xs) && Linear(parse, xs) && From(os, xs) && multiset(os) == multiset(os')
    ensures Replay(parse, os).watermark == Replay(parse, os').watermark
  {
    if os == [] {
      assert |multiset(os')| == 0;
    } else {
      forall i | 0 <= i < |os'| ensures os'[i] in xs { InPermutation(os, os', os'[i]); }
      assert |os'| == |multiset(os')| == |multiset(os)| == |os|;
      var x := TopIsStored(parse, xs, os);
      var y := TopIsStored(parse, xs, os');
      InPermutation(os, os', x);
      InPermutation(os, os', y);
    }
  }

  lemma ReplayOfThree(parse: Parser, a: Observation, b: Observation, c: Observation)
    ensures Replay(parse, [a, b, c]) == Contract(parse, Contract(parse, Contract(parse, EMPTY, a), b), c)
  {
    ReplayOfTwo(parse, a, b);
    assert [a, b, c][..2] == [a, b];
  }

  /** Three that displace each other in a circle end as the last one processed. */
  lemma CircleEndsAsLast(parse: Parser, a: Observation, b: Observation, c: Observation)
    requires Counts(a) && Counts(b) && Counts(c) && a.watermark != b.watermark && b.watermark != c.watermark
    requires Displaces(parse, a, b) && Displaces(parse, b, c)
    ensures Replay(parse, [a, b, c]).watermark == c.watermark
  {
    ReplayOfThree(parse, a, b, c);
    FirstIsStored(parse, a);
    NextIsStored(parse, Contract(parse, EMPTY, a), a, b);
    NextIsStored(parse, Contract(parse, Contract(parse, EMPTY, a), b), b, c);
  }

  lemma OrderFreePair(parse: Parser, xs: set<Observation>, a: Observation, b: Observation)
    requires Distinct(xs) && OrderFree(parse, xs) && a in xs && b in xs && a != b
    ensures Displaces(parse, a, b) != Displaces(parse, b, a)
  {
    assert From([a, b], xs) && multiset([a, b]) == multiset([b, a]);
    assert Replay(parse, [a, b]).watermark == Replay(parse, [b, a]).watermark;
    TwoEndAlikeExactlyWhen(parse, a, b);
  }

  lemma Rotated(a: Observation, b: Observation, c: Observation)
    ensures multiset([a, b, c]) == multiset([b, c, a])
  {
  }

  lemma EndsAlike(parse: Parser, xs: set<Observation>, os: seq<Observation>, os': seq<Observation>)
    requires OrderFree(parse, xs) && From(os, xs) && multiset(os) == multiset(os')
    ensures Replay(parse, os).watermark == Replay(parse, os').watermark
  {
  }

  lemma OrderFreeTriple(parse: Parser, xs: set<Observation>, a: Observation, b: Observation, c: Observation)
    requires Distinct(xs) && OrderFree(parse, xs) && a in xs && b in xs && c in xs && a != c
    requires Displaces(parse, a, b) && Displaces(parse, b, c)
    ensures !Displaces(parse, c, a)
  {
    Rotated(a, b, c);
    EndsAlike(parse, xs, [a, b, c], [b, c, a]);
    if Displaces(parse, c, a) {
      NotItself(parse, a, b);
      NotItself(parse, b, c);
      CircleEndsAsLast(parse, a, b, c);
      CircleEndsAsLast(parse, b, c, a);
    }
  }

  lemma OrderFreeIsLinear(parse: Parser, xs: set<Observation>)
    requires Distinct(xs) && OrderFree(parse, xs)
    ensures Linear(parse, xs)
  {
    forall a, b | a in xs && b in xs && a != b ensures Displaces(parse, a, b) != Displaces(parse, b, a) {
      OrderFreePair(parse, xs, a, b);
    }
    forall a, b, c | a in xs && b in xs && c in xs && a != c && Displaces(parse, a, b) && Displaces(parse, b, c)
      ensures Displaces(parse, a, c)
    {
      OrderFreeTriple(parse, xs, a, b, c);
      OrderFreePair(parse, xs, a, c);
    }
  }

  /** Nothing displaces itself. */
  lemma NotItself(parse: Parser, a: Observation, b: Observation)
    requires Displaces(parse, a, b)
    ensures a != b
  {
  }

  /** The order does not matter for any stream over a set of values exactly when displacing
      is a linear order on them. */
  lemma OrderFreeExactlyWhenLinear(parse: Parser, xs: set<Observation>)
    requires Distinct(xs)
    ensures OrderFree(parse, xs) <==> Linear(parse, xs)
  {
    if OrderFree(parse, xs) { OrderFreeIsLinear(parse, xs); }
    if Linear(parse, xs) {
      forall os, os' | From(os, xs) && multiset(os) == multiset(os')
        ensures Replay(parse, os).watermark == Replay(parse, os').watermark
      {
        LinearIsOrderFree(parse, xs, os, os');
      }
    }
  }

  // ----- out-of-order drops -----

  /** Different values of the stream cannot be compared. */
  ghost predicate Incomparable(parse: Parser, os: seq<Observation>) {
    forall i, j ::
      (0 <= i < |os| && 0 <= j < |os| && Counts(os[i]) && Counts(os[j]) && os[i].watermark != os[j].watermark) ==>
      OrderableGreater(parse, os[i].watermark, os[j].watermark).None?
  }

  lemma IncomparablePrefix(parse: Parser, os: seq<Observation>, all: seq<Observation>)
    requires os <= all && Incomparable(parse, all)
    ensures Incomparable(parse, os)
  {
    forall i, j | 0 <= i < |os| && 0 <= j < |os| && Counts(os[i]) && Counts(os[j]) && os[i].watermark != os[j].watermark
      ensures OrderableGreater(parse, os[i].watermark, os[j].watermark).None?
    {
      assert all[i] == os[i] && all[j] == os[j];
    }
  }

  lemma OrderStep(parse: Parser, row: Row, o: Observation)
    requires row.runAt.Some? && row.advancedAt.Some?
    requires Counts(o) && row.watermark != o.watermark ==> OrderableGreater(parse, row.watermark, o.watermark).None?
    ensures Contract(parse, row, o).runAt.Some? && row.runAt.value <= Contract(parse, row, o).runAt.value
  {
  }

  /** The run order that is stored never goes back. */
  lemma {:induction false} OrderClimbs(parse: Parser, os: seq<Observation>, n: nat)
    requires n <= |os| && Incomparable(parse, os) && Replay(parse, os[..n]).runAt.Some?
    ensures Replay(parse, os).runAt.Some? && Replay(parse, os[..n]).runAt.value <= Replay(parse, os).runAt.value
    decreases |os|
  {
    if n == |os| {
      assert os[..n] == os;
    } else {
      var front, o := os[..|os| - 1], os[|os| - 1];
      assert front[..n] == os[..n];
      IncomparablePrefix(parse, front, os);
      OrderClimbs(parse, front, n);
      StoredIsIncomparable(parse, front, os, o);
      OrderStep(parse, Replay(parse, front), o);
    }
  }

  /** A stored value is one of the stream, so it cannot be compared with another one. */
  lemma StoredIsIncomparable(parse: Parser, os: seq<Observation>, all: seq<Observation>, o: Observation)
    requires os <= all && Incomparable(parse, all) && o in all && Replay(parse, os).runAt.Some?
    ensures Replay(parse, os).advancedAt.Some?
    ensures Counts(o) && Replay(parse, os).watermark != o.watermark ==>
      OrderableGreater(parse, Replay(parse, os).watermark, o.watermark).None?
  {
    ColumnsComeFromAcceptedObservations(parse, os);
    var i := LastOf(parse, os, Advances);
    assert all[i] == os[i];
    var j :| 0 <= j < |all| && all[j] == o;
  }

  lemma DroppedAgainstStored(parse: Parser, row: Row, o: Observation)
    requires Decide(parse, row, o).OutOfOrderDropped?
    ensures Counts(o) && row.runAt.Some? && o.order <= row.runAt.value
  {
  }

  lemma DecidedAgainstStored(parse: Parser, row: Row, o: Observation)
    requires Counts(o) && row.advancedAt.Some? && row.runAt.Some? && o.order <= row.runAt.value
    requires row.watermark != o.watermark ==> OrderableGreater(parse, row.watermark, o.watermark).None?
    ensures if row.watermark == o.watermark then Decide(parse, row, o).Verified?
      else Decide(parse, row, o).OutOfOrderDropped?
  {
  }

  /** Among incomparable values an observation that was dropped as out of order is decided
      otherwise later exactly when its own value has been stored meanwhile; it is then
      verified, and never advances the watermark. */
  lemma OutOfOrderDropTurnsExactlyWhen(parse: Parser, os: seq<Observation>, n: nat, o: Observation)
    requires n <= |os| && Incomparable(parse, os + [o]) && Decide(parse, Replay(parse, os[..n]), o).OutOfOrderDropped?
    ensures var later := Decide(parse, Replay(parse, os), o);
      if Replay(parse, os).watermark == o.watermark then later.Verified? else later.OutOfOrderDropped?
  {
    DroppedAgainstStored(parse, Replay(parse, os[..n]), o);
    LaterRow(parse, os, n, o);
    DecidedAgainstStored(parse, Replay(parse, os), o);
  }

  lemma LaterRow(parse: Parser, os: seq<Observation>, n: nat, o: Observation)
    requires n <= |os| && Incomparable(parse, os + [o]) && Replay(parse, os[..n]).runAt.Some?
    ensures Replay(parse, os).runAt.Some? && Replay(parse, os[..n]).runAt.value <= Replay(parse, os).runAt.value
    ensures Replay(parse, os).advancedAt.Some?
    ensures Counts(o) && Replay(parse, os).watermark != o.watermark ==>
      OrderableGreater(parse, Replay(parse, os).watermark, o.watermark).None?
  {
    var all := os + [o];
    assert all[|os|] == o;
    IncomparablePrefix(parse, os, all);
    OrderClimbs(parse, os, n);
    StoredIsIncomparable(parse, os, all, o);
  }

  // ----- when a drop can turn into an advance -----

  predicate IsDrop(outcome: Outcome) {
    outcome.RegressionDropped? || outcome.OutOfOrderDropped?
  }

  /** Values of different kinds: a number that is too small is dropped, a text takes the
      place of the larger number, and then the same small number advances. */
  lemma DropCanTurnIntoAdvance(parse: Parser, row: Row, o: Observation, text: Observation)
    requires Decide(parse, row, o).RegressionDropped? && row.runAt.Some?
    requires Counts(text) && text.watermark != row.watermark && text.watermark != o.watermark
    requires row.runAt.value < text.order < o.order
    requires OrderableGreater(parse, row.watermark, text.watermark).None?
    requires OrderableGreater(parse, text.watermark, o.watermark).None?
    ensures Decide(parse, row, text).Advanced? && Decide(parse, Contract(parse, row, text), o).Advanced?
  {
    assert Contract(parse, row, text).watermark == text.watermark;
  }

  /** What displaces a value that displaced another one displaces that one too. */
  ghost predicate Transitive(parse: Parser, xs: set<Observation>) {
    forall a, b, c :: a in xs && b in xs && c in xs && a != c && Displaces(parse, a, b) && Displaces(parse, b, c)
      ==> Displaces(parse, a, c)
  }

  /** In no stream over the observations does one that was dropped advance later. */
  ghost predicate DropsStand(parse: Parser, xs: set<Observation>) {
    forall os, n: nat, o :: From(os, xs) && o in xs && n <= |os| && IsDrop(Decide(parse, Replay(parse, os[..n]), o))
      ==> !Decide(parse, Replay(parse, os), o).Advanced?
  }

  lemma DecidedByStored(parse: Parser, row: Row, x: Observation, o: Observation)
    requires Stores(row, x) && Counts(x) && Counts(o) && (o.watermark == x.watermark ==> o == x)
    ensures Decide(parse, row, o).Advanced? <==> o != x && Displaces(parse, x, o)
    ensures IsDrop(Decide(parse, row, o)) <==> o != x && !Displaces(parse, x, o)
  {
  }

  /** What is stored later is what is stored now or displaces it. */
  lemma {:induction false} StoredClimbs(parse: Parser, xs: set<Observation>, os: seq<Observation>, n: nat,
                                        x: Observation)
    returns (y: Observation)
    requires Distinct(xs) && Transitive(parse, xs) && From(os, xs) && n <= |os| && x in xs
    requires Stores(Replay(parse, os[..n]), x)
    ensures y in xs && Stores(Replay(parse, os), y) && (y == x || Displaces(parse, x, y))
    decreases |os|
  {
    if n == |os| {
      assert os[..n] == os;
      y := x;
    } else {
      var front, o := os[..|os| - 1], os[|os| - 1];
      assert front[..n] == os[..n];
      var z := StoredClimbs(parse, xs, front, n, x);
      NextIsStored(parse, Replay(parse, front), z, o);
      y := if o != z && Displaces(parse, z, o) then o else z;
    }
  }

  /** Something of the stream is stored. */
  lemma {:induction false} SomeStored(parse: Parser, xs: set<Observation>, os: seq<Observation>)
    returns (x: Observation)
    requires Distinct(xs) && From(os, xs) && os != []
    ensures x in xs && Stores(Replay(parse, os), x)
  {
    var front, o := os[..|os| - 1], os[|os| - 1];
    if front == [] {
      x := o;
      FirstIsStored(parse, o);
    } else {
      var z := SomeStored(parse, xs, front);
      NextIsStored(parse, Replay(parse, front), z, o);
      x := if o != z && Displaces(parse, z, o) then o else z;
    }
  }

  lemma TransitiveDropStands(parse: Parser, xs: set<Observation>, os: seq<Observation>, n: nat, o: Observation)
    requires Distinct(xs) && Transitive(parse, xs) && From(os, xs) && o in xs && n <= |os|
    requires IsDrop(Decide(parse, Replay(parse, os[..n]), o))
    ensures !Decide(parse, Replay(parse, os), o).Advanced?
  {
    if n > 0 {
      var x := SomeStored(parse, xs, os[..n]);
      var y := StoredClimbs(parse, xs, os, n, x);
      DecidedByStored(parse, Replay(parse, os[..n]), x, o);
      DecidedByStored(parse, Replay(parse, os), y, o);
    }
  }

  lemma StandingDropsAreTransitive(parse: Parser, xs: set<Observation>, a: Observation, b: Observation, c: Observation)
    requires Distinct(xs) && DropsStand(parse, xs) && a in xs && b in xs && c in xs && a != c
    requires Displaces(parse, a, b) && Displaces(parse, b, c)
    ensures Displaces(parse, a, c)
  {
    var os := [a, b];
    NotItself(parse, a, b);
    NotItself(parse, b, c);
    assert os[..1] == [a] && From(os, xs);
    StoredAfterTwo(parse, a, b);
    DecidedByStored(parse, Replay(parse, [a]), a, c);
    DecidedByStored(parse, Replay(parse, [a, b]), b, c);
  }

  lemma StoredAfterTwo(parse: Parser, a: Observation, b: Observation)
    requires Counts(a) && Counts(b) && a.watermark != b.watermark && Displaces(parse, a, b)
    ensures Stores(Replay(parse, [a]), a) && Stores(Replay(parse, [a, b]), b)
  {
    ReplayOfTwo(parse, a, b);
    assert Replay(parse, [a]) == Contract(parse, Replay(parse, []), a);
    FirstIsStored(parse, a);
    NextIsStored(parse, Replay(parse, [a]), a, b);
  }

  /** Drops stand in all streams over a set of values exactly when displacing is transitive
      on them. */
  lemma DropsStandExactlyWhenTransitive(parse: Parser, xs: set<Observation>)
    requires Distinct(xs)
    ensures DropsStand(parse, xs) <==> Transitive(parse, xs)
  {
    if Transitive(parse, xs) {
      forall os, n: nat, o | From(os, xs) && o in xs && n <= |os| && IsDrop(Decide(parse, Replay(parse, os[..n]), o))
        ensures !Decide(parse, Replay(parse, os), o).Advanced?
      {
        TransitiveDropStands(parse, xs, os, n, o);
      }
    }
    if DropsStand(parse, xs) {
      forall a, b, c | a in xs && b in xs && c in xs && a != c && Displaces(parse, a, b) && Displaces(parse, b, c)
        ensures Displaces(parse, a, c)
      {
        StandingDropsAreTransitive(parse, xs, a, b, c);
      }
    }
  }
}
