/** What a run of the backfill leaves in the rows and counts, field by field. */
module BackfillMeaning {
  import opened Basics
  import opened Backfill
  import opened BackfillConvergence

  /** The row needs no work: embedded by the present model from its present
      text, with a stored vector and 1024 finite numbers. */
  predicate Current(row: Row, settings: Settings) {
    && row.hash == Some(settings.hash(row.text)) && row.model == Some(settings.model) && row.dim == Some(1024)
    && row.status == Embedded && row.stored.Some? && row.embedding.Some?
    && |row.embedding.value| == 1024 && forall i :: 0 <= i < 1024 ==> row.embedding.value[i].Finite?
  }

  lemma CurrentIff(row: Row, settings: Settings)
    ensures ValidExisting(row, settings) <==> Current(row, settings)
  {
  }

  /** A row whose text, model or dimension has changed is worked on again. */
  lemma ChangedRowIsPending(row: Row, settings: Settings)
    ensures row.hash != Some(settings.hash(row.text)) || row.model != Some(settings.model) || row.dim != Some(1024) ==>
              PendingTexts([row], settings) == [row.text]
  {
    assert [row][..0] == [] && PendingTexts([], settings) == [];
  }

  /** What the provider's answer is accepted as, and the reason when it is not. */
  lemma AnswerMeans(provider: Provider, texts: seq<string>)
    ensures match provider.embed(texts)
            case Raised(reason) => Answer(provider, texts) == Raised(reason)
            case Ok(vectors) =>
              if |vectors| != |texts| then Answer(provider, texts) == Raised("knowledge_embedding_cardinality_mismatch")
              else if forall i :: 0 <= i < |vectors| ==> |vectors[i]| == 1024 && forall k :: 0 <= k < 1024 ==> vectors[i][k].Finite?
              then Answer(provider, texts) == Ok(vectors)
              else Answer(provider, texts) == Raised("knowledge_embedding_vector_invalid")
  {
    if provider.embed(texts).Ok? {
      var vectors := provider.embed(texts).value;
      assert forall i :: 0 <= i < |vectors| ==>
               (ValidVector(vectors[i]) <==> |vectors[i]| == 1024 && forall k :: 0 <= k < 1024 ==> vectors[i][k].Finite?);
    }
  }

  /** With a provider that embeds text by text and does not fail, every row that
      was not current holds the embedding of its own text, and the others are
      as they were. */
  lemma RunStoresEmbeddings(rows: seq<Row>, settings: Settings, provider: Provider, embed: string -> Vector, i: nat)
    requires settings.batchSize >= 1 && PerText(provider, embed) && i < |rows|
    ensures var after := Run(rows, settings, provider)[i];
            if Current(rows[i], settings) then after == rows[i]
            else Holds(after, settings, embed(rows[i].text)) && after.id == rows[i].id && after.text == rows[i].text
  {
    RunIsPointwise(rows, settings, provider, embed);
    CurrentIff(rows[i], settings);
    EmbedHolds(rows[i], settings, embed(rows[i].text));
    hide Current, ValidExisting, Holds, Run, PerText, Embed;
  }

  /** The error kept on a failed row: the reason, or a default for an empty one,
      cut to 120 characters. */
  lemma FailedRowMeans(rows: seq<Row>, settings: Settings, provider: Provider, i: nat)
    requires i < |rows| && !Current(rows[i], settings)
    requires PendingTexts(rows, settings) != [] && Answer(provider, PendingTexts(rows, settings)).Raised?
    ensures var after, reason := Batch(rows, settings, provider)[i], Answer(provider, PendingTexts(rows, settings)).code;
            var full := if reason == "" then "embedding_failed" else reason;
            && after == rows[i].(status := Failed, error := after.error) && after.error.Some?
            && after.error.value <= full && |after.error.value| == if |full| < 120 then |full| else 120
  {
    CurrentIff(rows[i], settings);
    hide Current, ValidExisting;
  }

  // ----- The counts -----

  /** Row by row: skipped if it was current, embedded if it has become so, and
      failed if it is not. */
  function Counted(rows: seq<Row>, after: seq<Row>, settings: Settings): Tally
    requires |rows| == |after|
  {
    if rows == [] then Tally(0, 0, 0, 0)
    else
      var rest := Counted(rows[1..], after[1..], settings);
      if Current(rows[0], settings) then rest.(processed := rest.processed + 1, skipped := rest.skipped + 1)
      else if Current(after[0], settings) then rest.(processed := rest.processed + 1, embedded := rest.embedded + 1)
      else rest.(processed := rest.processed + 1, failed := rest.failed + 1)
  }

  lemma {:induction false} CountedJoin(a: seq<Row>, a': seq<Row>, b: seq<Row>, b': seq<Row>, settings: Settings)
    requires |a| == |a'| && |b| == |b'|
    ensures Counted(a + b, a' + b', settings) == Counted(a, a', settings).Plus(Counted(b, b', settings))
  {
    hide Current;
    if a == [] {
      assert a + b == b && a' + b' == b';
    } else {
      CountedJoin(a[1..], a'[1..], b, b', settings);
      assert (a + b)[1..] == a[1..] + b && (a' + b')[1..] == a'[1..] + b';
    }
  }

  lemma {:induction false} CountedEnd(rows: seq<Row>, after: seq<Row>, settings: Settings)
    requires |rows| == |after| && rows != []
    ensures var n, c := |rows| - 1, Counted(rows[..|rows| - 1], after[..|rows| - 1], settings);
            Counted(rows, after, settings) ==
            if Current(rows[n], settings) then c.Plus(Tally(1, 0, 1, 0))
            else if Current(after[n], settings) then c.Plus(Tally(1, 1, 0, 0)) else c.Plus(Tally(1, 0, 0, 1))
  {
    hide Current;
    var n := |rows| - 1;
    CountedJoin(rows[..n], after[..n], [rows[n]], [after[n]], settings);
    assert rows == rows[..n] + [rows[n]] && after == after[..n] + [after[n]];
    assert [rows[n]][1..] == [] && [after[n]][1..] == [];
  }

  /** All pending rows of a batch become current, or none does. */
  lemma {:induction false} UniformCount(rows: seq<Row>, after: seq<Row>, settings: Settings, done: bool)
    requires |rows| == |after|
    requires forall i :: 0 <= i < |rows| && !ValidExisting(rows[i], settings) ==> (ValidExisting(after[i], settings) <==> done)
    ensures var pending := |PendingTexts(rows, settings)|;
            && pending <= |rows|
            && Counted(rows, after, settings)
               == Tally(|rows|, if done then pending else 0, |rows| - pending, if done then 0 else pending)
  {
    hide Current, ValidExisting;
    if rows != [] {
      var n := |rows| - 1;
      UniformCount(rows[..n], after[..n], settings, done);
      CountedEnd(rows, after, settings);
      CurrentIff(rows[n], settings);
      CurrentIff(after[n], settings);
    }
  }

  lemma BatchCounts(rows: seq<Row>, settings: Settings, provider: Provider)
    ensures BatchTally(rows, settings, provider) == Counted(rows, Batch(rows, settings, provider), settings)
  {
    var texts, after := PendingTexts(rows, settings), Batch(rows, settings, provider);
    NothingPending(rows, settings);
    var done := texts == [] || Answer(provider, texts).Ok?;
    forall i | 0 <= i < |rows| && !ValidExisting(rows[i], settings) ensures ValidExisting(after[i], settings) <==> done {
      if texts != [] {
        match Answer(provider, texts)
        case Raised(reason) => FailedIsPending(rows[i], settings, reason);
        case Ok(vectors) => FillValidates(rows, settings, vectors);
      }
    }
    UniformCount(rows, after, settings, done);
    hide ValidExisting, Current, Fill, Fail;
  }

  /** The counts of a run are those of its rows. */
  lemma {:induction false} RunCounts(rows: seq<Row>, settings: Settings, provider: Provider)
    requires settings.batchSize >= 1
    ensures RunTally(rows, settings, provider) == Counted(rows, Run(rows, settings, provider), settings)
    decreases |rows|
  {
    hide Batch, BatchTally, Current;
    var size := settings.batchSize;
    if rows == [] {
      EmptyRun(settings, provider);
    } else if |rows| <= size {
      BatchCounts(rows, settings, provider);
    } else {
      BatchCounts(rows[..size], settings, provider);
      RunCounts(rows[size..], settings, provider);
      assert rows == rows[..size] + rows[size..];
      CountedJoin(rows[..size], Batch(rows[..size], settings, provider), rows[size..], Run(rows[size..], settings, provider), settings);
    }
  }
}
