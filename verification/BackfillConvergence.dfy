/** Stopping the backfill anywhere and starting it again reaches the same rows
    as never stopping it. */
module BackfillConvergence {
  import opened Basics
  import opened Backfill

  // ----- One batch -----

  predicate AllValid(rows: seq<Row>, settings: Settings) {
    forall i :: 0 <= i < |rows| ==> ValidExisting(rows[i], settings)
  }

  lemma {:induction false} NothingPending(rows: seq<Row>, settings: Settings)
    ensures PendingTexts(rows, settings) == [] <==> AllValid(rows, settings)
  {
    hide ValidExisting;
    if rows != [] {
      NothingPending(rows[..|rows| - 1], settings);
    }
  }

  lemma {:induction false} FillValidates(rows: seq<Row>, settings: Settings, vectors: seq<Vector>)
    requires ValidBatch(vectors, |PendingTexts(rows, settings)|)
    ensures AllValid(Fill(rows, settings, vectors), settings)
  {
    if rows != [] {
      var front, row := rows[..|rows| - 1], rows[|rows| - 1];
      if ValidExisting(row, settings) {
        FillValidates(front, settings, vectors);
      } else {
        assert ValidVector(vectors[|vectors| - 1]);
        assert ValidExisting(Embed(row, settings, vectors[|vectors| - 1]), settings);
        assert ValidBatch(vectors[..|vectors| - 1], |vectors| - 1);
        FillValidates(front, settings, vectors[..|vectors| - 1]);
      }
    }
  }

  lemma FailedIsPending(row: Row, settings: Settings, reason: string)
    ensures !ValidExisting(MarkFailed(row, reason), settings)
  {
  }

  lemma {:induction false} FailKeepsPending(rows: seq<Row>, settings: Settings, reason: string)
    ensures PendingTexts(Fail(rows, settings, reason), settings) == PendingTexts(rows, settings)
  {
    hide ValidExisting;
    if rows != [] {
      var front, row := rows[..|rows| - 1], rows[|rows| - 1];
      FailKeepsPending(front, settings, reason);
      FailedIsPending(row, settings, reason);
      assert Fail(rows, settings, reason)[..|rows| - 1] == Fail(front, settings, reason);
    }
  }

  lemma FailTwice(rows: seq<Row>, settings: Settings, reason: string)
    ensures Fail(Fail(rows, settings, reason), settings, reason) == Fail(rows, settings, reason)
  {
    hide ValidExisting;
    forall i | 0 <= i < |rows| ensures !ValidExisting(MarkFailed(rows[i], reason), settings) {
      FailedIsPending(rows[i], settings, reason);
    }
  }

  /** Repeating a batch changes nothing, whether it succeeded or failed. */
  lemma BatchIsIdempotent(rows: seq<Row>, settings: Settings, provider: Provider)
    ensures Batch(Batch(rows, settings, provider), settings, provider) == Batch(rows, settings, provider)
  {
    hide ValidExisting, Fill, Fail;
    var texts := PendingTexts(rows, settings);
    if texts != [] {
      match Answer(provider, texts)
      case Raised(reason) =>
        FailKeepsPending(rows, settings, reason);
        FailTwice(rows, settings, reason);
      case Ok(vectors) =>
        FillValidates(rows, settings, vectors);
        NothingPending(Fill(rows, settings, vectors), settings);
    }
  }

  /** A batch whose provider call fails touches only status and error. */
  lemma FailedBatchKeepsEmbeddings(rows: seq<Row>, settings: Settings, provider: Provider, i: nat)
    requires i < |rows| && PendingTexts(rows, settings) != [] && Answer(provider, PendingTexts(rows, settings)).Raised?
    ensures var row := Batch(rows, settings, provider)[i];
            row == rows[i].(status := row.status, error := row.error)
            && (ValidExisting(rows[i], settings) ==> row == rows[i])
            && (!ValidExisting(rows[i], settings) ==> row.status == Failed && row.error.Some?)
  {
    hide ValidExisting;
  }

  // ----- Whole runs -----

  /** Interrupting after any number of committed batches and rerunning gives
      the same rows as one uninterrupted run, failing batches included. */
  lemma {:induction false} RerunConverges(rows: seq<Row>, settings: Settings, provider: Provider, n: nat)
    requires settings.batchSize >= 1
    ensures Run(RunBatches(rows, settings, provider, n), settings, provider) == Run(rows, settings, provider)
    decreases n
  {
    hide Batch;
    var size := settings.batchSize;
    if n > 0 {
      if |rows| <= size {
        BatchIsIdempotent(rows, settings, provider);
      } else {
        var head, tail := rows[..size], rows[size..];
        var again := RunBatches(rows, settings, provider, n);
        BatchIsIdempotent(head, settings, provider);
        RerunConverges(tail, settings, provider, n - 1);
        assert again[..size] == Batch(head, settings, provider);
        assert again[size..] == RunBatches(tail, settings, provider, n - 1);
      }
    }
  }

  /** So does a rerun after a finished run, for any pattern of failures. */
  lemma {:induction false} RunIsIdempotent(rows: seq<Row>, settings: Settings, provider: Provider)
    requires settings.batchSize >= 1
    ensures Run(Run(rows, settings, provider), settings, provider) == Run(rows, settings, provider)
    decreases |rows|
  {
    hide Batch;
    var size := settings.batchSize;
    if |rows| <= size {
      BatchIsIdempotent(rows, settings, provider);
    } else {
      var head, tail := rows[..size], rows[size..];
      BatchIsIdempotent(head, settings, provider);
      RunIsIdempotent(tail, settings, provider);
      var again := Run(rows, settings, provider);
      assert again[..size] == Batch(head, settings, provider) && again[size..] == Run(tail, settings, provider);
    }
  }

  /** Every row is counted once. */
  lemma {:induction false} RowsAreConserved(rows: seq<Row>, settings: Settings, provider: Provider)
    requires settings.batchSize >= 1
    ensures var t := RunTally(rows, settings, provider);
            t.processed == |rows| && t.embedded + t.skipped + t.failed == t.processed
    decreases |rows|
  {
    if |rows| > settings.batchSize {
      RowsAreConserved(rows[settings.batchSize..], settings, provider);
      PendingAtMost(rows[..settings.batchSize], settings);
    } else {
      PendingAtMost(rows, settings);
    }
  }

  lemma BatchSettles(rows: seq<Row>, settings: Settings, provider: Provider)
    ensures BatchTally(rows, settings, provider).failed == 0 <==> AllValid(Batch(rows, settings, provider), settings)
    ensures AllValid(rows, settings) ==>
              BatchTally(rows, settings, provider) == Tally(|rows|, 0, |rows|, 0)
  {
    hide AllValid, Fill, Fail;
    var texts := PendingTexts(rows, settings);
    PendingAtMost(rows, settings);
    NothingPending(rows, settings);
    if texts != [] {
      match Answer(provider, texts)
      case Raised(reason) =>
        FailKeepsPending(rows, settings, reason);
        NothingPending(Fail(rows, settings, reason), settings);
      case Ok(vectors) =>
        FillValidates(rows, settings, vectors);
    }
  }

  /** A run reports no failure exactly when it leaves every row validly embedded. */
  lemma {:induction false} CleanRunIff(rows: seq<Row>, settings: Settings, provider: Provider)
    requires settings.batchSize >= 1
    ensures RunTally(rows, settings, provider).failed == 0 <==> AllValid(Run(rows, settings, provider), settings)
    decreases |rows|
  {
    hide Batch, BatchTally, AllValid;
    var size := settings.batchSize;
    if rows == [] {
      EmptyRun(settings, provider);
      NothingPending(rows, settings);
    } else if |rows| <= size {
      BatchSettles(rows, settings, provider);
    } else {
      var head, tail := rows[..size], rows[size..];
      BatchSettles(head, settings, provider);
      CleanRunIff(tail, settings, provider);
      SplitAll(Batch(head, settings, provider), Run(tail, settings, provider), settings);
    }
  }

  lemma SplitAll(a: seq<Row>, b: seq<Row>, settings: Settings)
    ensures AllValid(a + b, settings) <==> AllValid(a, settings) && AllValid(b, settings)
  {
    hide ValidExisting;
    if AllValid(a + b, settings) {
      forall i | 0 <= i < |a| ensures ValidExisting(a[i], settings) {
        assert (a + b)[i] == a[i];
      }
      forall i | 0 <= i < |b| ensures ValidExisting(b[i], settings) {
        assert (a + b)[|a| + i] == b[i];
      }
    }
  }

  lemma {:induction false} ValidRowsAreSkipped(rows: seq<Row>, settings: Settings, provider: Provider)
    requires settings.batchSize >= 1
    requires AllValid(rows, settings)
    ensures RunTally(rows, settings, provider) == Tally(|rows|, 0, |rows|, 0)
    decreases |rows|
  {
    hide BatchTally;
    var size := settings.batchSize;
    if |rows| <= size {
      BatchSettles(rows, settings, provider);
    } else {
      BatchSettles(rows[..size], settings, provider);
      assert rows == rows[..size] + rows[size..];
      SplitAll(rows[..size], rows[size..], settings);
      ValidRowsAreSkipped(rows[size..], settings, provider);
    }
  }

  /** After a run without failures a rerun skips every row and writes nothing. */
  lemma CleanRunIsFinal(rows: seq<Row>, settings: Settings, provider: Provider)
    requires settings.batchSize >= 1 && RunTally(rows, settings, provider).failed == 0
    ensures RunTally(Run(rows, settings, provider), settings, provider) == Tally(|rows|, 0, |rows|, 0)
    ensures Run(Run(rows, settings, provider), settings, provider) == Run(rows, settings, provider)
  {
    hide AllValid;
    CleanRunIff(rows, settings, provider);
    ValidRowsAreSkipped(Run(rows, settings, provider), settings, provider);
    RunIsIdempotent(rows, settings, provider);
  }

  // ----- A provider that answers text by text -----

  /** The provider never fails and embeds every text on its own, validly. */
  ghost predicate PerText(provider: Provider, embed: string -> Vector) {
    && (forall text :: ValidVector(embed(text)))
    && (forall texts :: provider.embed(texts) == Ok(seq(|texts|, i requires 0 <= i < |texts| => embed(texts[i]))))
  }

  function Settled(rows: seq<Row>, settings: Settings, embed: string -> Vector): seq<Row> {
    seq(|rows|, i requires 0 <= i < |rows| =>
      if ValidExisting(rows[i], settings) then rows[i] else Embed(rows[i], settings, embed(rows[i].text)))
  }

  lemma {:induction false} FillIsPointwise(rows: seq<Row>, settings: Settings, embed: string -> Vector)
    ensures var texts := PendingTexts(rows, settings);
            Fill(rows, settings, seq(|texts|, i requires 0 <= i < |texts| => embed(texts[i]))) == Settled(rows, settings, embed)
  {
    hide ValidExisting, Embed;
    if rows != [] {
      var front, row := rows[..|rows| - 1], rows[|rows| - 1];
      FillIsPointwise(front, settings, embed);
      var texts, less := PendingTexts(rows, settings), PendingTexts(front, settings);
      var vectors := seq(|texts|, i requires 0 <= i < |texts| => embed(texts[i]));
      if !ValidExisting(row, settings) {
        assert vectors[..|vectors| - 1] == seq(|less|, i requires 0 <= i < |less| => embed(less[i]));
      }
      assert Settled(rows, settings, embed) == Settled(front, settings, embed) + Settled([row], settings, embed);
    }
  }

  lemma BatchIsPointwise(rows: seq<Row>, settings: Settings, provider: Provider, embed: string -> Vector)
    requires PerText(provider, embed)
    ensures Batch(rows, settings, provider) == Settled(rows, settings, embed)
  {
    hide ValidExisting, Embed, Fill;
    var texts := PendingTexts(rows, settings);
    NothingPending(rows, settings);
    if texts != [] {
      FillIsPointwise(rows, settings, embed);
    }
  }

  /** With such a provider the result of a run does not depend on the batch
      size: each row keeps its valid embedding or gets that of its own text. */
  lemma {:induction false} RunIsPointwise(rows: seq<Row>, settings: Settings, provider: Provider, embed: string -> Vector)
    requires settings.batchSize >= 1 && PerText(provider, embed)
    ensures Run(rows, settings, provider) == Settled(rows, settings, embed)
    decreases |rows|
  {
    hide Batch, ValidExisting, Embed, PerText;
    var size := settings.batchSize;
    if |rows| <= size {
      BatchIsPointwise(rows, settings, provider, embed);
    } else {
      BatchIsPointwise(rows[..size], settings, provider, embed);
      RunIsPointwise(rows[size..], settings, provider, embed);
    }
  }

  // ----- Failures that go away -----

  /** The provider may fail on any call, and otherwise embeds every text on its
      own, validly. */
  ghost predicate MayFail(provider: Provider, embed: string -> Vector) {
    && (forall text :: ValidVector(embed(text)))
    && (forall texts :: provider.embed(texts).Ok? ==>
          provider.embed(texts) == Ok(seq(|texts|, i requires 0 <= i < |texts| => embed(texts[i]))))
  }

  /** One pass: a provider, with its own failures and batch size, of which the
      first `batches` batches are committed. */
  datatype Pass = Pass(provider: Provider, batchSize: int, batches: nat)

  ghost predicate Passes(passes: seq<Pass>, embed: string -> Vector) {
    forall i :: 0 <= i < |passes| ==> passes[i].batchSize >= 1 && MayFail(passes[i].provider, embed)
  }

  ghost function AfterPasses(rows: seq<Row>, settings: Settings, passes: seq<Pass>, embed: string -> Vector): (r: seq<Row>)
    requires Passes(passes, embed)
    ensures |r| == |rows|
  {
    if passes == [] then rows
    else
      var last := passes[|passes| - 1];
      RunBatches(AfterPasses(rows, settings, passes[..|passes| - 1], embed), settings.(batchSize := last.batchSize), last.provider,
                 last.batches)
  }

  /** What any number of passes can have made of a row: nothing to a valid one;
      of a pending one its own embedding, or a change of status and error only. */
  predicate RowReached(row: Row, now: Row, settings: Settings, embed: string -> Vector) {
    if ValidExisting(row, settings) then now == row
    else now == Embed(row, settings, embed(row.text))
         || (now == row.(status := now.status, error := now.error) && !ValidExisting(now, settings))
  }

  ghost predicate Reached(rows: seq<Row>, now: seq<Row>, settings: Settings, embed: string -> Vector) {
    |now| == |rows| && forall i :: 0 <= i < |rows| ==> RowReached(rows[i], now[i], settings, embed)
  }

  lemma RowSteps(row: Row, now: Row, settings: Settings, embed: string -> Vector, reason: string)
    requires ValidVector(embed(row.text)) && RowReached(row, now, settings, embed)
    ensures RowReached(row, if ValidExisting(now, settings) then now else MarkFailed(now, reason), settings, embed)
    ensures RowReached(row, if ValidExisting(now, settings) then now else Embed(now, settings, embed(now.text)), settings, embed)
    ensures (if ValidExisting(now, settings) then now else Embed(now, settings, embed(now.text)))
            == (if ValidExisting(row, settings) then row else Embed(row, settings, embed(row.text)))
  {
    hide ValidVector;
    FailedIsPending(now, settings, reason);
    EmbedIsValid(row, settings, embed(row.text));
  }

  lemma EmbedIsValid(row: Row, settings: Settings, v: Vector)
    requires ValidVector(v)
    ensures ValidExisting(Embed(row, settings, v), settings)
  {
  }

  lemma BatchReaches(rows: seq<Row>, now: seq<Row>, settings: Settings, provider: Provider, embed: string -> Vector)
    requires MayFail(provider, embed) && Reached(rows, now, settings, embed)
    ensures Reached(rows, Batch(now, settings, provider), settings, embed)
  {
    hide ValidExisting, Embed, Fill, RowReached, MarkFailed, ValidVector;
    var texts := PendingTexts(now, settings);
    if texts != [] {
      match Answer(provider, texts)
      case Raised(reason) =>
        forall i | 0 <= i < |rows| ensures RowReached(rows[i], Fail(now, settings, reason)[i], settings, embed) {
          RowSteps(rows[i], now[i], settings, embed, reason);
        }
      case Ok(vectors) =>
        FillIsPointwise(now, settings, embed);
        forall i | 0 <= i < |rows| ensures RowReached(rows[i], Settled(now, settings, embed)[i], settings, embed) {
          RowSteps(rows[i], now[i], settings, embed, "");
        }
    }
  }

  lemma ReachedParts(rows: seq<Row>, now: seq<Row>, settings: Settings, embed: string -> Vector, n: nat)
    requires |now| == |rows| && n <= |rows|
    ensures Reached(rows, now, settings, embed) <==>
            Reached(rows[..n], now[..n], settings, embed) && Reached(rows[n..], now[n..], settings, embed)
  {
    hide RowReached;
    if Reached(rows[..n], now[..n], settings, embed) && Reached(rows[n..], now[n..], settings, embed) {
      forall i | 0 <= i < |rows| ensures RowReached(rows[i], now[i], settings, embed) {
        if i < n {
          assert rows[i] == rows[..n][i] && now[i] == now[..n][i];
        } else {
          assert rows[i] == rows[n..][i - n] && now[i] == now[n..][i - n];
        }
      }
    }
  }

  lemma {:induction false} BatchesReach(rows: seq<Row>, now: seq<Row>, settings: Settings, provider: Provider, embed: string -> Vector,
                                        n: nat)
    requires settings.batchSize >= 1 && MayFail(provider, embed) && Reached(rows, now, settings, embed)
    ensures Reached(rows, RunBatches(now, settings, provider, n), settings, embed)
    decreases n
  {
    hide Batch, Reached, MayFail;
    assert |now| == |rows| by { ReachedLength(rows, now, settings, embed); }
    var size := settings.batchSize;
    if n > 0 {
      if |now| <= size {
        BatchReaches(rows, now, settings, provider, embed);
      } else {
        ReachedParts(rows, now, settings, embed, size);
        BatchReaches(rows[..size], now[..size], settings, provider, embed);
        BatchesReach(rows[size..], now[size..], settings, provider, embed, n - 1);
        var after := RunBatches(now, settings, provider, n);
        assert after[..size] == Batch(now[..size], settings, provider);
        assert after[size..] == RunBatches(now[size..], settings, provider, n - 1);
        ReachedParts(rows, after, settings, embed, size);
      }
    }
  }

  lemma ReachedLength(rows: seq<Row>, now: seq<Row>, settings: Settings, embed: string -> Vector)
    requires Reached(rows, now, settings, embed)
    ensures |now| == |rows|
  {
  }

  lemma BatchSizeIsIrrelevant(rows: seq<Row>, now: seq<Row>, settings: Settings, size: int, embed: string -> Vector)
    ensures Reached(rows, now, settings, embed) <==> Reached(rows, now, settings.(batchSize := size), embed)
  {
    hide ValidVector;
  }

  lemma {:induction false} PassesReach(rows: seq<Row>, settings: Settings, passes: seq<Pass>, embed: string -> Vector)
    requires Passes(passes, embed)
    ensures Reached(rows, AfterPasses(rows, settings, passes, embed), settings, embed)
  {
    if passes == [] {
      hide ValidVector, Embed;
    } else {
      hide Reached, MayFail, RunBatches;
      var last := passes[|passes| - 1];
      var sized := settings.(batchSize := last.batchSize);
      var before := AfterPasses(rows, settings, passes[..|passes| - 1], embed);
      PassesReach(rows, settings, passes[..|passes| - 1], embed);
      BatchSizeIsIrrelevant(rows, before, settings, last.batchSize, embed);
      BatchesReach(rows, before, sized, last.provider, embed, last.batches);
      BatchSizeIsIrrelevant(rows, RunBatches(before, sized, last.provider, last.batches), settings, last.batchSize, embed);
    }
  }

  /** After any number of passes, each stopped anywhere and failing on any of
      its calls, one run without failures reaches the store that it alone would
      have reached. */
  lemma FailuresLeaveNoTrace(rows: seq<Row>, settings: Settings, passes: seq<Pass>, provider: Provider, embed: string -> Vector)
    requires settings.batchSize >= 1 && Passes(passes, embed) && PerText(provider, embed)
    ensures Run(AfterPasses(rows, settings, passes, embed), settings, provider) == Run(rows, settings, provider)
    ensures Run(rows, settings, provider) == Settled(rows, settings, embed)
  {
    hide Run, ValidExisting, Embed, RowReached, ValidVector, MayFail;
    var now := AfterPasses(rows, settings, passes, embed);
    PassesReach(rows, settings, passes, embed);
    RunIsPointwise(now, settings, provider, embed);
    RunIsPointwise(rows, settings, provider, embed);
    forall i | 0 <= i < |rows| ensures Settled(now, settings, embed)[i] == Settled(rows, settings, embed)[i] {
      RowSteps(rows[i], now[i], settings, embed, "");
    }
  }
}
