/** What an observation does to a row, case by case and for whole streams. */
module WatermarkCases {
  import opened Options
  import opened Watermark

  // ----- backfills -----

  function Ordinary(os: seq<Observation>): seq<Observation> {
    if os == [] then []
    else Ordinary(os[..|os| - 1]) + if os[|os| - 1].backfill then [] else [os[|os| - 1]]
  }

  /** A backfill neither advances nor verifies: a stream and the stream without its backfills
      give one row. */
  lemma {:induction false} BackfillsDoNotCount(parse: Parser, os: seq<Observation>)
    ensures Replay(parse, os) == Replay(parse, Ordinary(os))
  {
    if os != [] {
      var front, last := os[..|os| - 1], os[|os| - 1];
      BackfillsDoNotCount(parse, front);
      if last.backfill {
        assert Ordinary(os) == Ordinary(front);
      } else {
        ReplayAppend(parse, Ordinary(front), last);
      }
    }
  }

  /** Backfills, and only they, are answered as dropped backfills. */
  lemma BackfillIsAnswered(parse: Parser, os: seq<Observation>, i: nat)
    requires i < |os|
    ensures OutcomeAt(parse, os, i) == BackfillDropped <==> os[i].backfill
  {
  }

  // ----- the other cases -----

  /** The row after a verification: its completion time, its run and a snapshot if it has one. */
  ghost predicate IsVerified(row: Row, o: Observation, row': Row) {
    && row'.watermark == row.watermark && row'.runAt == row.runAt && row'.advancedAt == row.advancedAt
    && row'.verifiedAt == Some(o.completed) && Rides(row, o, row')
  }

  /** The row after an advance. */
  ghost predicate IsAdvanced(row: Row, o: Observation, row': Row) {
    && row'.watermark == o.watermark && row'.runAt == Some(o.order) && row'.advancedAt == Some(o.completed)
    && row'.verifiedAt == row.verifiedAt && Rides(row, o, row')
  }

  /** The run and the snapshot that ride along with either. */
  ghost predicate Rides(row: Row, o: Observation, row': Row) {
    && (row'.lastRun == None <==> o.run == 0) && (o.run != 0 ==> row'.lastRun == Some(o.run))
    && row'.consumed == if |o.consumed| > 0 then o.consumed else row.consumed
  }

  /** The dataset has had a value. */
  predicate HasValue(row: Row) {
    row.watermark != "" || row.advancedAt.Some?
  }

  /** The value is verified exactly if it is the stored one or none at all. */
  lemma VerifiedExactlyWhen(parse: Parser, row: Row, o: Observation)
    ensures var outcome, row' := Decide(parse, row, o), Contract(parse, row, o);
      && (outcome == Verified <==>
            !o.backfill && (o.watermark == "" || (HasValue(row) && o.watermark == row.watermark)))
      && (outcome == Verified ==> IsVerified(row, o, row'))
  {
  }

  /** Both are of the kind that the stored one is of first, and the new one is larger. */
  ghost predicate IsLarger(parse: Parser, stored: string, next: string) {
    var c, n := parse(stored), parse(next);
    || (c.int64.Some? && n.int64.Some? && c.int64.value < n.int64.value)
    || (c.int64.None? && c.uint64.Some? && n.uint64.Some? && c.uint64.value < n.uint64.value)
    || (c.int64.None? && c.uint64.None? && c.float.Some? && n.float.Some? && c.float.value < n.float.value)
    || (NoNumber(c) && c.instant.Some? && n.instant.Some? && c.instant.value < n.instant.value)
  }

  predicate NoNumber(p: Parse) {
    p.int64.None? && p.uint64.None? && p.float.None?
  }

  /** The new one is not of the kind that the stored one is of first. */
  ghost predicate IsForeign(parse: Parser, stored: string, next: string) {
    var c, n := parse(stored), parse(next);
    && (c.int64.Some? ==> n.int64.None?)
    && (c.int64.None? && c.uint64.Some? ==> n.uint64.None?)
    && (c.int64.None? && c.uint64.None? && c.float.Some? ==> n.float.None?)
    && (NoNumber(c) && c.instant.Some? ==> n.instant.None?)
  }

  lemma Compared(parse: Parser, stored: string, next: string)
    ensures OrderableGreater(parse, stored, next).None? <==> IsForeign(parse, stored, next)
    ensures OrderableGreater(parse, stored, next) == Some(true) <==> IsLarger(parse, stored, next)
  {
  }

  /** A new value that can displace the stored one. */
  ghost predicate Displaces(parse: Parser, row: Row, o: Observation) {
    || IsLarger(parse, row.watermark, o.watermark)
    || (IsForeign(parse, row.watermark, o.watermark) && (row.runAt == None || row.runAt.value < o.order))
  }

  /** A new value advances exactly if it is the first, or larger, or cannot be compared and is
      of a later run. */
  lemma AdvancesExactlyWhen(parse: Parser, row: Row, o: Observation)
    ensures var outcome, row' := Decide(parse, row, o), Contract(parse, row, o);
      && (outcome == Advanced <==>
            && !o.backfill && o.watermark != ""
            && (!HasValue(row) || (o.watermark != row.watermark && Displaces(parse, row, o))))
      && (outcome == Advanced ==> IsAdvanced(row, o, row'))
  {
    Compared(parse, row.watermark, o.watermark);
  }

  /** Everything else is dropped: as out of order if it cannot be compared, and as a
      regression if it can. Nothing is written then. */
  lemma DroppedExactlyWhen(parse: Parser, row: Row, o: Observation)
    requires !o.backfill
    ensures var outcome, row' := Decide(parse, row, o), Contract(parse, row, o);
      var loses := o.watermark !in {"", row.watermark} && HasValue(row) && !Displaces(parse, row, o);
      && (outcome == OutOfOrderDropped <==> loses && IsForeign(parse, row.watermark, o.watermark))
      && (outcome == RegressionDropped <==> loses && !IsForeign(parse, row.watermark, o.watermark))
      && (outcome !in {Advanced, Verified} ==> row' == row)
  {
    Compared(parse, row.watermark, o.watermark);
  }
}
