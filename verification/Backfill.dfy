/** The restartable embedding backfill: batches of rows, one commit per batch. */
module Backfill {
  import opened Basics

  const DIMENSION: nat := 1024
  const MAX_REASON: nat := 120

  /** A stored number is finite or not; its size plays no part. */
  datatype Number = Finite(value: real) | NotFinite

  type Vector = seq<Number>

  datatype Status = Pending | Embedded | Failed

  datatype Row = Row(id: int, text: string, hash: Option<string>, model: Option<string>, dim: Option<nat>,
                     status: Status, error: Option<string>, embedding: Option<Vector>, stored: Option<Vector>)

  /** The outcome of one provider call is a function of the texts sent. */
  datatype Provider = Provider(embed: seq<string> -> Result<seq<Vector>>)

  datatype Settings = Settings(model: string, dimension: nat, batchSize: int, hash: string -> string)

  datatype Tally = Tally(processed: nat, embedded: nat, skipped: nat, failed: nat) {
    function Plus(other: Tally): Tally {
      Tally(processed + other.processed, embedded + other.embedded, skipped + other.skipped, failed + other.failed)
    }
  }

  const ZERO := Tally(0, 0, 0, 0)

  predicate ValidVector(v: Vector) {
    |v| == DIMENSION && forall i :: 0 <= i < |v| ==> v[i].Finite?
  }

  predicate ValidExisting(row: Row, settings: Settings) {
    && row.hash == Some(settings.hash(row.text))
    && row.model == Some(settings.model)
    && row.dim == Some(DIMENSION)
    && row.status == Embedded
    && row.stored.Some?
    && row.embedding.Some? && ValidVector(row.embedding.value)
  }

  // ----- The meaning of one batch -----

  function PendingTexts(rows: seq<Row>, settings: Settings): seq<string> {
    if rows == [] then []
    else
      var front, row := PendingTexts(rows[..|rows| - 1], settings), rows[|rows| - 1];
      if ValidExisting(row, settings) then front else front + [row.text]
  }

  function MarkFailed(row: Row, reason: string): Row {
    row.(status := Failed, error := Some(Take(if reason == "" then "embedding_failed" else reason, MAX_REASON)))
  }

  function Embed(row: Row, settings: Settings, v: Vector): Row {
    row.(embedding := Some(v), model := Some(settings.model), dim := Some(DIMENSION), status := Embedded, error := None,
         hash := Some(settings.hash(row.text)), stored := Some(v))
  }

  /** Every row the batch has to work on, rewritten; `vectors` is consumed in order. */
  function Fill(rows: seq<Row>, settings: Settings, vectors: seq<Vector>): (r: seq<Row>)
    requires |vectors| == |PendingTexts(rows, settings)|
    ensures |r| == |rows|
  {
    if rows == [] then []
    else
      var row := rows[|rows| - 1];
      if ValidExisting(row, settings) then Fill(rows[..|rows| - 1], settings, vectors) + [row]
      else Fill(rows[..|rows| - 1], settings, vectors[..|vectors| - 1]) + [Embed(row, settings, vectors[|vectors| - 1])]
  }

  function Fail(rows: seq<Row>, settings: Settings, reason: string): (r: seq<Row>)
    ensures |r| == |rows|
  {
    seq(|rows|, i requires 0 <= i < |rows| => if ValidExisting(rows[i], settings) then rows[i] else MarkFailed(rows[i], reason))
  }

  predicate ValidBatch(vectors: seq<Vector>, count: nat) {
    |vectors| == count && forall i :: 0 <= i < |vectors| ==> ValidVector(vectors[i])
  }

  /** The provider's answer after validation. */
  function Answer(provider: Provider, texts: seq<string>): Result<seq<Vector>> {
    match provider.embed(texts)
    case Raised(reason) => Raised(reason)
    case Ok(vectors) =>
      if |vectors| != |texts| then Raised("knowledge_embedding_cardinality_mismatch")
      else if !ValidBatch(vectors, |texts|) then Raised("knowledge_embedding_vector_invalid")
      else Ok(vectors)
  }

  function Batch(rows: seq<Row>, settings: Settings, provider: Provider): (r: seq<Row>)
    ensures |r| == |rows|
  {
    var texts := PendingTexts(rows, settings);
    if texts == [] then rows
    else
      match Answer(provider, texts)
      case Raised(reason) => Fail(rows, settings, reason)
      case Ok(vectors) => Fill(rows, settings, vectors)
  }

  function BatchTally(rows: seq<Row>, settings: Settings, provider: Provider): Tally {
    var texts := PendingTexts(rows, settings);
    PendingAtMost(rows, settings);
    if texts == [] then Tally(|rows|, 0, |rows|, 0)
    else if Answer(provider, texts).Ok? then Tally(|rows|, |texts|, |rows| - |texts|, 0)
    else Tally(|rows|, 0, |rows| - |texts|, |texts|)
  }

  lemma {:induction false} PendingAtMost(rows: seq<Row>, settings: Settings)
    ensures |PendingTexts(rows, settings)| <= |rows|
  {
    if rows != [] {
      PendingAtMost(rows[..|rows| - 1], settings);
    }
  }

  // ----- The meaning of a run -----

  /** The database after the first `n` batches of a run over `rows`. */
  function RunBatches(rows: seq<Row>, settings: Settings, provider: Provider, n: nat): (r: seq<Row>)
    requires settings.batchSize >= 1
    ensures |r| == |rows|
  {
    if n == 0 then rows
    else if |rows| <= settings.batchSize then Batch(rows, settings, provider)
    else Batch(rows[..settings.batchSize], settings, provider) + RunBatches(rows[settings.batchSize..], settings, provider, n - 1)
  }

  /** The database after an uninterrupted run. */
  function Run(rows: seq<Row>, settings: Settings, provider: Provider): (r: seq<Row>)
    requires settings.batchSize >= 1
    ensures |r| == |rows|
  {
    if |rows| <= settings.batchSize then Batch(rows, settings, provider)
    else Batch(rows[..settings.batchSize], settings, provider) + Run(rows[settings.batchSize..], settings, provider)
  }

  function RunTally(rows: seq<Row>, settings: Settings, provider: Provider): Tally
    requires settings.batchSize >= 1
  {
    if rows == [] then ZERO
    else if |rows| <= settings.batchSize then BatchTally(rows, settings, provider)
    else BatchTally(rows[..settings.batchSize], settings, provider).Plus(RunTally(rows[settings.batchSize..], settings, provider))
  }

  // ----- The session and the loops -----

  /** `committed` is what the database keeps, `working` the session's rows. */
  class Session {
    var committed: seq<Row>
    var working: array<Row>

    ghost predicate Valid()
      reads this, working
    {
      |committed| == working.Length
    }

    constructor (rows: seq<Row>)
      ensures Valid() && fresh(working) && committed == rows && working[..] == rows
    {
      committed := rows;
      working := new Row[|rows|](i requires 0 <= i < |rows| => rows[i]);
    }

    method Commit()
      modifies `committed
      ensures committed == working[..]
    {
      committed := working[..];
    }

    method Rollback()
      requires Valid()
      modifies working
      ensures working[..] == committed
    {
      forall i | 0 <= i < working.Length {
        working[i] := committed[i];
      }
    }
  }

  /** The positions of the pending rows inside a batch. */
  function PendingAt(rows: seq<Row>, settings: Settings): (p: seq<nat>)
    ensures |p| == |PendingTexts(rows, settings)|
    ensures forall k :: 0 <= k < |p| ==> p[k] < |rows|
  {
    if rows == [] then []
    else
      var front := PendingAt(rows[..|rows| - 1], settings);
      if ValidExisting(rows[|rows| - 1], settings) then front else front + [|rows| - 1]
  }

  /** The scan of one batch: which rows are pending, with their texts. */
  method Scan(rows: array<Row>, lo: nat, hi: nat, settings: Settings) returns (pending: seq<nat>, texts: seq<string>)
    requires lo <= hi <= rows.Length
    ensures texts == PendingTexts(rows[lo..hi], settings)
    ensures pending == PendingAt(rows[lo..hi], settings)
  {
    hide ValidExisting;
    pending, texts := [], [];
    for i := lo to hi
      invariant texts == PendingTexts(rows[lo..i], settings)
      invariant pending == PendingAt(rows[lo..i], settings)
    {
      assert rows[lo..i + 1][..i - lo] == rows[lo..i];
      if !ValidExisting(rows[i], settings) {
        pending := pending + [i - lo];
        texts := texts + [rows[i].text];
      }
    }
  }

  predicate Increasing(p: seq<nat>) {
    forall j, k :: 0 <= j < k < |p| ==> p[j] < p[k]
  }

  lemma {:induction false} PendingAtIncreases(rows: seq<Row>, settings: Settings)
    ensures Increasing(PendingAt(rows, settings))
  {
    hide ValidExisting, PendingTexts;
    if rows != [] {
      var front := PendingAt(rows[..|rows| - 1], settings);
      PendingAtIncreases(rows[..|rows| - 1], settings);
      assert forall k :: 0 <= k < |front| ==> front[k] < |rows| - 1;
    }
  }

  lemma {:induction false} PendingAtHas(rows: seq<Row>, settings: Settings, i: nat)
    requires i < |rows|
    ensures i in PendingAt(rows, settings) <==> !ValidExisting(rows[i], settings)
  {
    hide ValidExisting, PendingTexts;
    if i < |rows| - 1 {
      PendingAtHas(rows[..|rows| - 1], settings, i);
    } else {
      var front := PendingAt(rows[..|rows| - 1], settings);
      assert forall k :: 0 <= k < |front| ==> front[k] < |rows| - 1;
    }
  }

  lemma {:induction false} PendingTextsAt(rows: seq<Row>, settings: Settings)
    ensures var p := PendingAt(rows, settings); forall k :: 0 <= k < |p| ==> PendingTexts(rows, settings)[k] == rows[p[k]].text
  {
    hide ValidExisting;
    if rows != [] {
      PendingTextsAt(rows[..|rows| - 1], settings);
    }
  }

  /** The positions are those of the pending rows, in order, and the texts are theirs. */
  lemma PendingAtIsExact(rows: seq<Row>, settings: Settings)
    ensures var p := PendingAt(rows, settings);
            && (forall i :: 0 <= i < |rows| ==> (i in p <==> !ValidExisting(rows[i], settings)))
            && (forall j, k :: 0 <= j < k < |p| ==> p[j] < p[k])
            && (forall k :: 0 <= k < |p| ==> PendingTexts(rows, settings)[k] == rows[p[k]].text)
  {
    hide ValidExisting, PendingTexts, PendingAt;
    PendingAtIncreases(rows, settings);
    PendingTextsAt(rows, settings);
    forall i | 0 <= i < |rows| ensures i in PendingAt(rows, settings) <==> !ValidExisting(rows[i], settings) {
      PendingAtHas(rows, settings, i);
    }
  }

  /** The row carries this vector, twice, and is marked as embedded by the present
      model from its present text. */
  predicate Holds(row: Row, settings: Settings, v: Vector) {
    && row.embedding == Some(v) && row.stored == Some(v)
    && row.hash == Some(settings.hash(row.text)) && row.model == Some(settings.model) && row.dim == Some(1024)
    && row.status == Embedded && row.error == None
  }

  lemma EmbedHolds(row: Row, settings: Settings, v: Vector)
    ensures Holds(Embed(row, settings, v), settings, v) && Embed(row, settings, v).id == row.id && Embed(row, settings, v).text == row.text
  {
  }

  lemma {:induction false} FillByRow(rows: seq<Row>, settings: Settings, vectors: seq<Vector>)
    requires |vectors| == |PendingTexts(rows, settings)|
    ensures var p, r := PendingAt(rows, settings), Fill(rows, settings, vectors);
            && (forall k :: 0 <= k < |p| ==> r[p[k]] == Embed(rows[p[k]], settings, vectors[k]))
            && (forall i :: 0 <= i < |rows| && ValidExisting(rows[i], settings) ==> r[i] == rows[i])
  {
    hide ValidExisting, Embed;
    if rows != [] {
      var front, row := rows[..|rows| - 1], rows[|rows| - 1];
      if ValidExisting(row, settings) {
        FillByRow(front, settings, vectors);
      } else {
        FillByRow(front, settings, vectors[..|vectors| - 1]);
      }
    }
  }

  /** The k-th pending row carries the k-th vector; the other rows are untouched. */
  lemma FillIsExact(rows: seq<Row>, settings: Settings, vectors: seq<Vector>)
    requires |vectors| == |PendingTexts(rows, settings)|
    ensures var p, r := PendingAt(rows, settings), Fill(rows, settings, vectors);
            && (forall k :: 0 <= k < |p| ==> r[p[k]] == Embed(rows[p[k]], settings, vectors[k]))
            && (forall k :: 0 <= k < |p| ==> Holds(r[p[k]], settings, vectors[k])
                                             && r[p[k]].id == rows[p[k]].id && r[p[k]].text == rows[p[k]].text)
            && (forall i :: 0 <= i < |rows| && ValidExisting(rows[i], settings) ==> r[i] == rows[i])
  {
    hide ValidExisting, Embed, Holds, Fill, PendingAt, PendingTexts;
    FillByRow(rows, settings, vectors);
    var p := PendingAt(rows, settings);
    forall k | 0 <= k < |p|
      ensures Holds(Fill(rows, settings, vectors)[p[k]], settings, vectors[k])
      ensures Fill(rows, settings, vectors)[p[k]].id == rows[p[k]].id && Fill(rows, settings, vectors)[p[k]].text == rows[p[k]].text
    {
      EmbedHolds(rows[p[k]], settings, vectors[k]);
    }
  }

  /** The effect of rewriting the first `k` listed rows of a batch. */
  function Rewritten(rows: seq<Row>, at: seq<nat>, fixed: seq<Row>, k: nat): (r: seq<Row>)
    requires k <= |at| == |fixed| && forall j :: 0 <= j < |at| ==> at[j] < |rows|
    ensures |r| == |rows|
  {
    if k == 0 then rows else Rewritten(rows, at, fixed, k - 1)[at[k - 1] := fixed[k - 1]]
  }

  lemma {:induction false} RewrittenAt(rows: seq<Row>, at: seq<nat>, fixed: seq<Row>, k: nat)
    requires k <= |at| == |fixed| && forall j :: 0 <= j < |at| ==> at[j] < |rows|
    requires forall i, j :: 0 <= i < j < |at| ==> at[i] < at[j]
    ensures forall j :: 0 <= j < k ==> Rewritten(rows, at, fixed, k)[at[j]] == fixed[j]
    ensures forall j :: k <= j < |at| ==> Rewritten(rows, at, fixed, k)[at[j]] == rows[at[j]]
    ensures forall i :: 0 <= i < |rows| && i !in at ==> Rewritten(rows, at, fixed, k)[i] == rows[i]
  {
    if k > 0 {
      RewrittenAt(rows, at, fixed, k - 1);
    }
  }

  lemma RewriteStep(rows: seq<Row>, at: seq<nat>, fixed: seq<Row>, k: nat)
    requires k < |at| == |fixed| && forall j :: 0 <= j < |at| ==> at[j] < |rows|
    requires forall i, j :: 0 <= i < j < |at| ==> at[i] < at[j]
    ensures Rewritten(rows, at, fixed, k)[at[k]] == rows[at[k]]
    ensures Rewritten(rows, at, fixed, k + 1) == Rewritten(rows, at, fixed, k)[at[k] := fixed[k]]
  {
    RewrittenAt(rows, at, fixed, k);
  }

  /** The listed rows after a change that may depend on the place in the list. */
  function Changed(rows: seq<Row>, at: seq<nat>, change: (Row, nat) -> Row): seq<Row>
    requires forall j :: 0 <= j < |at| ==> at[j] < |rows|
  {
    seq(|at|, j requires 0 <= j < |at| => change(rows[at[j]], j))
  }

  function FailedRows(rows: seq<Row>, at: seq<nat>, reason: string): seq<Row>
    requires forall j :: 0 <= j < |at| ==> at[j] < |rows|
  {
    Changed(rows, at, (row, _) => MarkFailed(row, reason))
  }

  function EmbedNth(settings: Settings, vectors: seq<Vector>): (Row, nat) -> Row {
    (row, j: nat) => if j < |vectors| then Embed(row, settings, vectors[j]) else row
  }

  function EmbeddedRows(rows: seq<Row>, at: seq<nat>, vectors: seq<Vector>, settings: Settings): seq<Row>
    requires forall j :: 0 <= j < |at| ==> at[j] < |rows|
  {
    Changed(rows, at, EmbedNth(settings, vectors))
  }

  lemma RewritingFails(rows: seq<Row>, settings: Settings, reason: string)
    ensures var at := PendingAt(rows, settings);
            Rewritten(rows, at, FailedRows(rows, at, reason), |at|) == Fail(rows, settings, reason)
  {
    hide ValidExisting, MarkFailed, PendingAt, Rewritten;
    var at := PendingAt(rows, settings);
    PendingAtIsExact(rows, settings);
    RewrittenAt(rows, at, FailedRows(rows, at, reason), |at|);
    var r := Rewritten(rows, at, FailedRows(rows, at, reason), |at|);
    forall i | 0 <= i < |rows| ensures r[i] == Fail(rows, settings, reason)[i] {
      if i in at {
        var j :| 0 <= j < |at| && at[j] == i;
        assert r[at[j]] == FailedRows(rows, at, reason)[j];
      }
    }
  }

  lemma RewritingFills(rows: seq<Row>, settings: Settings, vectors: seq<Vector>)
    requires |vectors| == |PendingTexts(rows, settings)|
    ensures var at := PendingAt(rows, settings);
            Rewritten(rows, at, EmbeddedRows(rows, at, vectors, settings), |at|) == Fill(rows, settings, vectors)
  {
    hide ValidExisting, Embed, PendingAt, Rewritten, Fill, PendingTexts;
    var at := PendingAt(rows, settings);
    PendingAtIsExact(rows, settings);
    FillIsExact(rows, settings, vectors);
    var fixed := EmbeddedRows(rows, at, vectors, settings);
    RewrittenAt(rows, at, fixed, |at|);
    var r := Rewritten(rows, at, fixed, |at|);
    forall i | 0 <= i < |rows| ensures r[i] == Fill(rows, settings, vectors)[i] {
      if i in at {
        var j :| 0 <= j < |at| && at[j] == i;
        assert r[at[j]] == fixed[j];
      }
    }
  }

  /** Assigns the listed rows of `rows[lo..hi]` in place, in order. */
  method Rewrite(rows: array<Row>, lo: nat, hi: nat, at: seq<nat>, change: (Row, nat) -> Row)
    requires lo <= hi <= rows.Length
    requires forall j :: 0 <= j < |at| ==> at[j] < hi - lo
    requires forall i, j :: 0 <= i < j < |at| ==> at[i] < at[j]
    modifies rows
    ensures rows[..lo] == old(rows[..lo]) && rows[hi..] == old(rows[hi..])
    ensures rows[lo..hi] == Rewritten(old(rows[lo..hi]), at, Changed(old(rows[lo..hi]), at, change), |at|)
  {
    ghost var was := rows[lo..hi];
    ghost var fixed := Changed(was, at, change);
    for k := 0 to |at|
      invariant rows[..lo] == old(rows[..lo]) && rows[hi..] == old(rows[hi..])
      invariant rows[lo..hi] == Rewritten(was, at, fixed, k)
    {
      hide Rewritten;
      RewriteStep(was, at, fixed, k);
      var row := rows[lo + at[k]];
      assert row == rows[lo..hi][at[k]];
      PutRow(rows, lo, hi, at[k], change(row, k));
    }
  }

  method PutRow(rows: array<Row>, lo: nat, hi: nat, at: nat, row: Row)
    requires lo <= hi <= rows.Length && at < hi - lo
    modifies rows
    ensures rows[..lo] == old(rows[..lo]) && rows[hi..] == old(rows[hi..])
    ensures rows[lo..hi] == old(rows[lo..hi])[at := row]
  {
    rows[lo + at] := row;
  }

  /** Marks the pending rows in place. */
  method MarkRowsFailed(rows: array<Row>, lo: nat, hi: nat, pending: seq<nat>, reason: string, settings: Settings)
    requires lo <= hi <= rows.Length && pending == PendingAt(rows[lo..hi], settings)
    modifies rows
    ensures rows[..lo] == old(rows[..lo]) && rows[hi..] == old(rows[hi..])
    ensures rows[lo..hi] == Fail(old(rows[lo..hi]), settings, reason)
  {
    hide ValidExisting, Fail, PendingAt, Rewritten;
    PendingAtIsExact(rows[lo..hi], settings);
    RewritingFails(rows[lo..hi], settings, reason);
    Rewrite(rows, lo, hi, pending, (row, _) => MarkFailed(row, reason));
  }

  /** Writes the vectors into the pending rows in place. */
  method WriteVectors(rows: array<Row>, lo: nat, hi: nat, pending: seq<nat>, vectors: seq<Vector>, settings: Settings)
    requires lo <= hi <= rows.Length && pending == PendingAt(rows[lo..hi], settings)
    requires |vectors| == |pending|
    modifies rows
    ensures rows[..lo] == old(rows[..lo]) && rows[hi..] == old(rows[hi..])
    ensures rows[lo..hi] == Fill(old(rows[lo..hi]), settings, vectors)
  {
    hide ValidExisting, Fill, PendingAt, Rewritten;
    PendingAtIsExact(rows[lo..hi], settings);
    RewritingFills(rows[lo..hi], settings, vectors);
    Rewrite(rows, lo, hi, pending, EmbedNth(settings, vectors));
  }

  /** One batch: scan, ask the provider, rewrite the pending rows. */
  method RunBatch(session: Session, lo: nat, hi: nat, settings: Settings, provider: Provider) returns (tally: Tally, touched: bool)
    requires session.Valid() && lo <= hi <= session.working.Length
    modifies session.working
    ensures session.working[..lo] == old(session.working[..lo]) && session.working[hi..] == old(session.working[hi..])
    ensures session.working[lo..hi] == Batch(old(session.working[lo..hi]), settings, provider)
    ensures tally == BatchTally(old(session.working[lo..hi]), settings, provider)
    ensures !touched ==> session.working[..] == old(session.working[..])
  {
    var rows := session.working;
    PendingAtMost(rows[lo..hi], settings);
    var pending, texts := Scan(rows, lo, hi, settings);
    var processed := hi - lo;
    if pending == [] {
      return Tally(processed, 0, processed, 0), false;
    }
    var answer := Answer(provider, texts);
    match answer
    case Raised(reason) =>
      MarkRowsFailed(rows, lo, hi, pending, reason, settings);
      return Tally(processed, 0, processed - |pending|, |pending|), true;
    case Ok(vectors) =>
      WriteVectors(rows, lo, hi, pending, vectors, settings);
      return Tally(processed, |pending|, processed - |pending|, 0), true;
  }

  /** How far a run has come: `done` replaces the first `offset` rows. */
  ghost predicate Progress(rows: seq<Row>, settings: Settings, provider: Provider, batches: nat, done: seq<Row>, tally: Tally)
    requires settings.batchSize >= 1
  {
    && |done| <= |rows|
    && Run(rows, settings, provider) == done + Run(rows[|done|..], settings, provider)
    && RunTally(rows, settings, provider) == tally.Plus(RunTally(rows[|done|..], settings, provider))
    && forall m: nat :: RunBatches(rows, settings, provider, batches + m) == done + RunBatches(rows[|done|..], settings, provider, m)
  }

  lemma ProgressStep(rows: seq<Row>, settings: Settings, provider: Provider, batches: nat, done: seq<Row>, tally: Tally, hi: nat)
    requires settings.batchSize >= 1 && Progress(rows, settings, provider, batches, done, tally)
    requires |done| < |rows| && hi == (if |done| + settings.batchSize <= |rows| then |done| + settings.batchSize else |rows|)
    ensures var segment := rows[|done|..hi];
            Progress(rows, settings, provider, batches + 1, done + Batch(segment, settings, provider),
                     tally.Plus(BatchTally(segment, settings, provider)))
  {
    hide Batch, BatchTally, Run, RunBatches, RunTally;
    var segment, rest := rows[|done|..hi], rows[|done|..];
    var done' := done + Batch(segment, settings, provider);
    assert rows[|done'|..] == rest[|segment|..] && segment == rest[..|segment|];
    UnfoldRun(rest, settings, provider, |segment|);
    forall m: nat
      ensures RunBatches(rows, settings, provider, batches + 1 + m) == done' + RunBatches(rows[|done'|..], settings, provider, m)
    {
      UnfoldBatches(rest, settings, provider, |segment|, m);
      assert batches + 1 + m == batches + (m + 1);
    }
  }

  lemma UnfoldRun(rows: seq<Row>, settings: Settings, provider: Provider, n: nat)
    requires settings.batchSize >= 1 && rows != [] && n == (if settings.batchSize <= |rows| then settings.batchSize else |rows|)
    ensures Run(rows, settings, provider) == Batch(rows[..n], settings, provider) + Run(rows[n..], settings, provider)
    ensures RunTally(rows, settings, provider) == BatchTally(rows[..n], settings, provider).Plus(RunTally(rows[n..], settings, provider))
  {
    hide Batch, BatchTally;
    if n == |rows| {
      assert rows[..n] == rows && rows[n..] == [];
      EmptyRun(settings, provider);
    }
  }

  lemma UnfoldBatches(rows: seq<Row>, settings: Settings, provider: Provider, n: nat, m: nat)
    requires settings.batchSize >= 1 && rows != [] && n == (if settings.batchSize <= |rows| then settings.batchSize else |rows|)
    ensures RunBatches(rows, settings, provider, m + 1) == Batch(rows[..n], settings, provider) + RunBatches(rows[n..], settings, provider, m)
  {
    hide Batch;
    if n == |rows| {
      assert rows[..n] == rows && rows[n..] == [];
    }
  }

  lemma EmptyRun(settings: Settings, provider: Provider)
    requires settings.batchSize >= 1
    ensures Run([], settings, provider) == [] && RunTally([], settings, provider) == ZERO
  {
  }

  lemma ProgressStart(rows: seq<Row>, settings: Settings, provider: Provider)
    requires settings.batchSize >= 1
    ensures Progress(rows, settings, provider, 0, [], ZERO)
  {
    assert rows[0..] == rows;
    forall m: nat
      ensures RunBatches(rows, settings, provider, 0 + m) == [] + RunBatches(rows, settings, provider, m)
    {
    }
  }

  lemma ProgressEnd(rows: seq<Row>, settings: Settings, provider: Provider, batches: nat, done: seq<Row>, tally: Tally)
    requires settings.batchSize >= 1 && Progress(rows, settings, provider, batches, done, tally) && |done| == |rows|
    ensures Run(rows, settings, provider) == done && RunTally(rows, settings, provider) == tally
  {
    assert rows[|done|..] == [];
    EmptyRun(settings, provider);
  }

  /** One batch of a run, committed unless the run is a dry one. */
  method Advance(session: Session, lo: nat, hi: nat, settings: Settings, provider: Provider, dryRun: bool,
                 ghost rows: seq<Row>, ghost done: seq<Row>)
    returns (tally: Tally)
    requires session.Valid() && lo <= hi <= session.working.Length == |rows| && |done| == lo
    requires session.working[..] == done + rows[lo..]
    requires session.committed == if dryRun then rows else session.working[..]
    modifies session`committed, session.working
    ensures session.Valid() && session.working[..] == done + Batch(rows[lo..hi], settings, provider) + rows[hi..]
    ensures session.committed == if dryRun then rows else session.working[..]
    ensures tally == BatchTally(rows[lo..hi], settings, provider)
  {
    hide Batch, BatchTally;
    var touched: bool;
    BatchOfMiddle(session.working[..], done, rows, lo, hi);
    SlicesAgree(session.working, lo, hi);
    tally, touched := RunBatch(session, lo, hi, settings, provider);
    SlicesAgree(session.working, lo, hi);
    Rejoin(session.working[..], lo, hi);
    if touched && !dryRun {
      session.Commit();
    }
  }

  lemma SlicesAgree(a: array<Row>, lo: nat, hi: nat)
    requires lo <= hi <= a.Length
    ensures a[..lo] == a[..][..lo] && a[lo..hi] == a[..][lo..hi] && a[hi..] == a[..][hi..]
  {
  }

  /** How many batches cover `n` rows. */
  function Batches(n: nat, size: nat): nat
    requires size >= 1
  {
    (n + size - 1) / size
  }

  lemma BatchesStep(n: nat, size: nat)
    requires size >= 1 && n >= 1
    ensures Batches(n, size) == 1 + Batches(if n <= size then 0 else n - size, size)
  {
    if n <= size {
      assert (n + size - 1) / size == 1 by { QuotientIs(n + size - 1, size, 1); }
      assert (size - 1) / size == 0 by { QuotientIs(size - 1, size, 0); }
    } else {
      var q := (n - size + size - 1) / size;
      assert n - 1 == q * size + (n - 1) % size;
      QuotientIs(n + size - 1, size, q + 1);
    }
  }

  lemma QuotientIs(n: nat, size: nat, q: nat)
    requires size >= 1 && q * size <= n < q * size + size
    ensures n / size == q
  {
    var k := n / size;
    assert n == k * size + n % size;
    ProductGrows(k + 1, q, size);
    ProductGrows(q + 1, k, size);
  }

  lemma ProductGrows(a: nat, b: nat, size: nat)
    ensures a <= b ==> a * size <= b * size
  {
  }

  /** `history` holds the database after each batch, up to the present one. */
  ghost predicate Recorded(history: seq<seq<Row>>, committed: seq<Row>, rows: seq<Row>, settings: Settings, provider: Provider, dryRun: bool)
    requires settings.batchSize >= 1
  {
    && (forall k :: 0 <= k < |history| ==>
          history[k] == if dryRun then rows else RunBatches(rows, settings, provider, k + 1))
    && committed == if history == [] then rows else history[|history| - 1]
  }

  lemma RecordedNext(history: seq<seq<Row>>, before: seq<Row>, committed: seq<Row>, rows: seq<Row>, settings: Settings,
                     provider: Provider, dryRun: bool)
    requires settings.batchSize >= 1
    requires Recorded(history, before, rows, settings, provider, dryRun)
    requires committed == if dryRun then rows else RunBatches(rows, settings, provider, |history| + 1)
    ensures Recorded(history + [committed], committed, rows, settings, provider, dryRun)
  {
    hide RunBatches;
  }

  lemma RecordedFirst(rows: seq<Row>, settings: Settings, provider: Provider, dryRun: bool)
    requires settings.batchSize >= 1
    ensures Recorded([], rows, rows, settings, provider, dryRun)
  {
  }

  lemma NoBatchesLeft(size: nat)
    requires size >= 1
    ensures Batches(0, size) == 0
  {
    QuotientIs(size - 1, size, 0);
  }

  /** What the loop keeps: `done` replaces the first rows, the rest are as they
      were, and every batch so far is in the history. */
  ghost predicate Underway(rows: seq<Row>, settings: Settings, provider: Provider, dryRun: bool, committed: seq<Row>,
                           working: seq<Row>, done: seq<Row>, tally: Tally, history: seq<seq<Row>>)
    requires settings.batchSize >= 1
  {
    && |done| <= |rows| && working == done + rows[|done|..]
    && Progress(rows, settings, provider, |history|, done, tally)
    && committed == (if dryRun then rows else working)
    && Recorded(history, committed, rows, settings, provider, dryRun)
    && Batches(|rows|, settings.batchSize) == |history| + Batches(|rows| - |done|, settings.batchSize)
  }

  lemma UnderwayStart(rows: seq<Row>, settings: Settings, provider: Provider, dryRun: bool)
    requires settings.batchSize >= 1
    ensures Underway(rows, settings, provider, dryRun, rows, rows, [], ZERO, [])
  {
    hide Progress, Recorded, Batches;
    ProgressStart(rows, settings, provider);
    RecordedFirst(rows, settings, provider, dryRun);
  }

  lemma ReadUnderway(rows: seq<Row>, settings: Settings, provider: Provider, dryRun: bool, committed: seq<Row>,
                     working: seq<Row>, done: seq<Row>, tally: Tally, history: seq<seq<Row>>)
    requires settings.batchSize >= 1 && Underway(rows, settings, provider, dryRun, committed, working, done, tally, history)
    ensures |done| <= |rows| && working == done + rows[|done|..] && committed == if dryRun then rows else working
  {
    hide Progress, Recorded, Batches;
  }

  lemma UnderwayStep(rows: seq<Row>, settings: Settings, provider: Provider, dryRun: bool, committed: seq<Row>,
                     working: seq<Row>, done: seq<Row>, tally: Tally, history: seq<seq<Row>>, hi: nat,
                     committed': seq<Row>, working': seq<Row>)
    requires settings.batchSize >= 1 && Underway(rows, settings, provider, dryRun, committed, working, done, tally, history)
    requires |done| < |rows| && hi == (if |done| + settings.batchSize <= |rows| then |done| + settings.batchSize else |rows|)
    requires working' == done + Batch(rows[|done|..hi], settings, provider) + rows[hi..]
    requires committed' == if dryRun then rows else working'
    ensures var segment := rows[|done|..hi];
            Underway(rows, settings, provider, dryRun, committed', working', done + Batch(segment, settings, provider),
                     tally.Plus(BatchTally(segment, settings, provider)), history + [committed'])
  {
    hide Progress, Recorded, Batches, Batch, BatchTally, RunBatches;
    var done' := done + Batch(rows[|done|..hi], settings, provider);
    var tally' := tally.Plus(BatchTally(rows[|done|..hi], settings, provider));
    ProgressStep(rows, settings, provider, |history|, done, tally, hi);
    BatchesStep(|rows| - |done|, settings.batchSize);
    ReadProgress(rows, settings, provider, |history| + 1, done', tally');
    RecordedNext(history, committed, committed', rows, settings, provider, dryRun);
  }

  lemma UnderwayEnd(rows: seq<Row>, settings: Settings, provider: Provider, dryRun: bool, committed: seq<Row>,
                    working: seq<Row>, done: seq<Row>, tally: Tally, history: seq<seq<Row>>)
    requires settings.batchSize >= 1 && Underway(rows, settings, provider, dryRun, committed, working, done, tally, history)
    requires |done| == |rows|
    ensures committed == (if dryRun then rows else Run(rows, settings, provider)) && tally == RunTally(rows, settings, provider)
    ensures !dryRun ==> working == committed
    ensures |history| == Batches(|rows|, settings.batchSize)
    ensures Recorded(history, committed, rows, settings, provider, dryRun)
  {
    ProgressEnd(rows, settings, provider, |history|, done, tally);
    NoBatchesLeft(settings.batchSize);
    hide Progress, Recorded, Batches, Run, RunTally;
    assert done + rows[|done|..] == done;
  }

  /** The whole backfill. `history` is the database after each batch: the state
      an interruption there leaves behind. */
  method RunBackfill(session: Session, settings: Settings, provider: Provider, dryRun: bool)
    returns (result: Result<Tally>, ghost history: seq<seq<Row>>)
    requires session.Valid() && session.working[..] == session.committed
    modifies session`committed, session.working
    ensures session.Valid() && session.working[..] == session.committed
    ensures result.Raised? <==> settings.dimension != DIMENSION || settings.batchSize < 1
    ensures result.Raised? || dryRun ==> session.committed == old(session.committed)
    ensures result.Ok? ==> result.value == RunTally(old(session.committed), settings, provider)
    ensures result.Ok? && !dryRun ==>
              session.committed == Run(old(session.committed), settings, provider)
    ensures result.Ok? ==>
              && |history| == Batches(|session.committed|, settings.batchSize)
              && Recorded(history, session.committed, old(session.committed), settings, provider, dryRun)
  {
    hide Progress, Run, RunBatches, RunTally, Batch, BatchTally, Batches, Recorded, Underway;
    history := [];
    if settings.dimension != DIMENSION {
      return Raised("knowledge_vector_dimension_mismatch"), history;
    }
    if settings.batchSize < 1 {
      return Raised("knowledge_embedding_batch_size_invalid"), history;
    }
    ghost var rows := session.committed;
    ghost var done: seq<Row> := [];
    var tally := ZERO;
    var offset := 0;
    UnderwayStart(rows, settings, provider, dryRun);
    while offset < session.working.Length
      invariant session.Valid() && |rows| == session.working.Length && |done| == offset <= |rows|
      invariant Underway(rows, settings, provider, dryRun, session.committed, session.working[..], done, tally, history)
    {
      ReadUnderway(rows, settings, provider, dryRun, session.committed, session.working[..], done, tally, history);
      var hi := if offset + settings.batchSize <= session.working.Length then offset + settings.batchSize else session.working.Length;
      ghost var before := session.committed;
      ghost var working := session.working[..];
      var batch := Advance(session, offset, hi, settings, provider, dryRun, rows, done);
      UnderwayStep(rows, settings, provider, dryRun, before, working, done, tally, history, hi, session.committed, session.working[..]);
      done := done + Batch(rows[offset..hi], settings, provider);
      tally := tally.Plus(batch);
      offset := hi;
      history := history + [session.committed];
    }
    UnderwayEnd(rows, settings, provider, dryRun, session.committed, session.working[..], done, tally, history);
    if dryRun {
      session.Rollback();
    }
    return Ok(tally), history;
  }

  lemma Rejoin(working: seq<Row>, lo: nat, hi: nat)
    requires lo <= hi <= |working|
    ensures working == working[..lo] + working[lo..hi] + working[hi..]
  {
  }

  lemma BatchOfMiddle(working: seq<Row>, done: seq<Row>, rows: seq<Row>, offset: nat, hi: nat)
    requires offset <= hi <= |rows| && |done| == offset && working == done + rows[offset..]
    ensures working[..offset] == done && working[offset..hi] == rows[offset..hi] && working[hi..] == rows[hi..]
  {
  }

  lemma ReadProgress(rows: seq<Row>, settings: Settings, provider: Provider, batches: nat, done: seq<Row>, tally: Tally)
    requires settings.batchSize >= 1 && Progress(rows, settings, provider, batches, done, tally)
    ensures RunBatches(rows, settings, provider, batches) == done + rows[|done|..]
  {
    assert RunBatches(rows, settings, provider, batches + 0) == done + RunBatches(rows[|done|..], settings, provider, 0);
  }
}
