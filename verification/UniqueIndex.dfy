/**
 Several write queues, one per back end, writing into one collection with a
 unique index on the message id. The documents of a bulk write are applied one
 at a time, in any order, interleaved with everybody else's, and possibly long
 after the write was reported as failed.
 */
module UniqueIndex {
  import opened Collections
  import opened WriteQueues

  datatype Owner = Outside | Of(queue: nat, caller: nat)

  datatype Row = Row(id: Id, owner: Owner)

  /** What became of one insert: a row, or an error with this code. */
  datatype Result = Inserted | Refused(code: int)

  /** `results` records, per caller of a queue, what the database did with its document. */
  datatype Store = Store(rows: seq<Row>, queues: seq<Queue>, results: map<(nat, nat), Result>)

  predicate HasRow(rows: seq<Row>, id: Id) {
    exists i :: 0 <= i < |rows| && rows[i].id == id
  }

  datatype Step =
    | Arrives(queue: nat, id: Id)
    | RunsCallback(queue: nat)
    | Applies(queue: nat, batch: nat, index: nat, fault: Option<int>)
    | Answers(queue: nat, batch: nat, outcome: Outcome)
    | WrittenElsewhere(id: Id)

  /** The item a database step is about. */
  predicate IsItem(s: Store, q: nat, k: nat, i: nat) {
    q < |s.queues| && k < |s.queues[q].sent| && i < |s.queues[q].sent[k].items|
  }

  /**
   An answer that lists per-document errors lists exactly those that happened,
   every document having been dealt with; an answer without them says nothing.
   */
  predicate Faithful(s: Store, q: nat, k: nat, outcome: Outcome)
    requires q < |s.queues| && k < |s.queues[q].sent|
  {
    WholeBatchFailed(outcome) ||
    forall i :: 0 <= i < |s.queues[q].sent[k].items| ==>
      var key := (q, s.queues[q].sent[k].items[i].caller);
      key in s.results && Reports(ErrorsOf(outcome), i, s.results[key])
  }

  /** No entry is about a document that went in; the last one about another says why it did not. */
  predicate Reports(errors: seq<WriteError>, i: nat, result: Result) {
    match result
    case Inserted => forall e :: 0 <= e < |errors| ==> errors[e].index != i
    case Refused(code) => exists e :: 0 <= e < |errors| && LastAbout(errors, i, e) && errors[e].code == code
  }

  function Apply(s: Store, q: nat, item: Item, fault: Option<int>): Store {
    var key := (q, item.caller);
    if key in s.results then s
    else if fault.Some? && fault.value != DUPLICATE_KEY then s.(results := s.results[key := Refused(fault.value)])
    else if HasRow(s.rows, item.id) then s.(results := s.results[key := Refused(DUPLICATE_KEY)])
    else s.(rows := s.rows + [Row(item.id, Of(q, item.caller))], results := s.results[key := Inserted])
  }

  function Next(s: Store, step: Step): Store {
    match step
    case Arrives(q, id) =>
      if q < |s.queues| then s.(queues := s.queues[q := Insert(s.queues[q], id)]) else s
    case RunsCallback(q) =>
      if q < |s.queues| && s.queues[q].ticks > 0 then s.(queues := s.queues[q := Tick(s.queues[q])]) else s
    case Applies(q, k, i, fault) =>
      if IsItem(s, q, k, i) then Apply(s, q, s.queues[q].sent[k].items[i], fault) else s
    case Answers(q, k, outcome) =>
      if q < |s.queues| && k < |s.queues[q].sent| && !s.queues[q].sent[k].answered && s.queues[q].inFlight > 0
         && Faithful(s, q, k, outcome)
      then s.(queues := s.queues[q := Answer(s.queues[q], k, outcome)])
      else s
    case WrittenElsewhere(id) =>
      if HasRow(s.rows, id) then s else s.(rows := s.rows + [Row(id, Outside)])
  }

  // --------------------------------------------------------------- Invariant

  ghost predicate OneRowPerId(rows: seq<Row>) {
    forall i, j :: 0 <= i < j < |rows| ==> rows[i].id != rows[j].id
  }

  function IdOf(s: Store, q: nat, caller: nat): Id
    requires q < |s.queues| && caller < |s.queues[q].arrivals|
  {
    s.queues[q].arrivals[caller]
  }

  predicate Known(queues: seq<Queue>, key: (nat, nat)) {
    key.0 < |queues| && key.1 < |queues[key.0].arrivals|
  }

  /** The results are what the rows show. */
  ghost predicate ResultsShow(rows: seq<Row>, queues: seq<Queue>, results: map<(nat, nat), Result>) {
    && (forall key :: key in results ==> Known(queues, key))
    && (forall key :: key in results && results[key].Inserted? ==>
          Row(queues[key.0].arrivals[key.1], Of(key.0, key.1)) in rows)
    && (forall key :: key in results && results[key] == Refused(DUPLICATE_KEY) ==>
          HasRow(rows, queues[key.0].arrivals[key.1]))
    && (forall i :: 0 <= i < |rows| && rows[i].owner.Of? ==>
          var key := (rows[i].owner.queue, rows[i].owner.caller);
          key in results && results[key].Inserted?)
  }

  /** Every answer a caller was given is what happened to its document. */
  ghost predicate Truthful(q: nat, settled: seq<Settlement>, results: map<(nat, nat), Result>) {
    forall i :: 0 <= i < |settled| && settled[i].verdict != Rejected ==>
      var key := (q, settled[i].caller);
      key in results && results[key] == if settled[i].verdict == Stored then Inserted else Refused(DUPLICATE_KEY)
  }

  ghost predicate StoreInv(s: Store) {
    && OneRowPerId(s.rows)
    && ResultsShow(s.rows, s.queues, s.results)
    && (forall q :: 0 <= q < |s.queues| ==> Inv(s.queues[q]))
    && (forall q :: 0 <= q < |s.queues| ==> Truthful(q, s.queues[q].settled, s.results))
  }

  function Start(queues: nat, maxBatch: nat, maxInFlight: nat): Store {
    Store([], seq(queues, _ => EmptyQueue(maxBatch, maxInFlight)), map[])
  }

  lemma StartInv(queues: nat, maxBatch: nat, maxInFlight: nat)
    requires maxBatch >= 1 && maxInFlight >= 1
    ensures StoreInv(Start(queues, maxBatch, maxInFlight))
  {
    hide Inv;
    EmptyInv(maxBatch, maxInFlight);
    EmptyHasSettledNothing(maxBatch, maxInFlight);
  }

  lemma EmptyHasSettledNothing(maxBatch: nat, maxInFlight: nat)
    ensures EmptyQueue(maxBatch, maxInFlight).settled == []
  {}

  /**
   What the unique index makes of a document: unless something else is wrong with it,
   it goes in as one new row exactly when no row has its id, and otherwise the error
   is the duplicate-key one. A document is dealt with once.
   */
  lemma TheIndexDecides(s: Store, q: nat, item: Item)
    ensures var t, key := Apply(s, q, item, None), (q, item.caller);
            if key in s.results then t == s
            else
              && t.queues == s.queues && t.results.Keys == s.results.Keys + {key}
              && (t.rows == s.rows + [Row(item.id, Of(q, item.caller))] && t.results[key] == Inserted
                  <==> forall i :: 0 <= i < |s.rows| ==> s.rows[i].id != item.id)
              && (t.rows == s.rows && t.results[key] == Refused(11000)
                  <==> exists i :: 0 <= i < |s.rows| && s.rows[i].id == item.id)
  {}

  /** An item of a bulk write carries the id its caller arrived with. */
  lemma {:induction false} SentItemAt(sent: seq<Sent>, k: nat, i: nat) returns (at: nat)
    requires k < |sent| && i < |sent[k].items|
    ensures at < |SentItems(sent)| && SentItems(sent)[at] == sent[k].items[i]
  {
    if k == 0 {
      at := i;
    } else {
      var rest := SentItemAt(sent[1..], k - 1, i);
      at := |sent[0].items| + rest;
    }
  }

  lemma ItemIsItsCaller(q: Queue, k: nat, i: nat)
    requires Inv(q) && k < |q.sent| && i < |q.sent[k].items|
    ensures var item := q.sent[k].items[i]; item.caller < |q.arrivals| && q.arrivals[item.caller] == item.id
  {
    var at := SentItemAt(q.sent, k, i);
    assert (SentItems(q.sent) + q.pending)[at] == SentItems(q.sent)[at];
  }

  /** Replacing one queue by one that has seen more arrivals leaves the record right. */
  lemma QueueMoves(s: Store, q: nat, after: Queue)
    requires StoreInv(s) && q < |s.queues| && Inv(after)
    requires s.queues[q].arrivals <= after.arrivals
    requires Truthful(q, after.settled, s.results)
    ensures StoreInv(s.(queues := s.queues[q := after]))
  {
    hide Inv, Truthful;
    var queues := s.queues[q := after];
    assert forall key: (nat, nat) :: Known(s.queues, key) ==>
        Known(queues, key) && queues[key.0].arrivals[key.1] == s.queues[key.0].arrivals[key.1];
  }

  lemma ApplyKeeps(s: Store, q: nat, item: Item, fault: Option<int>)
    requires StoreInv(s) && q < |s.queues|
    requires item.caller < |s.queues[q].arrivals| && s.queues[q].arrivals[item.caller] == item.id
    ensures StoreInv(Apply(s, q, item, fault))
  {
    hide Inv;
    var key := (q, item.caller);
    var t := Apply(s, q, item, fault);
    if key !in s.results {
      RecordGrows(s.rows, t.rows, s.queues, s.results, key, t.results[key]);
    }
  }

  lemma RecordGrows(rows: seq<Row>, rows': seq<Row>, queues: seq<Queue>, results: map<(nat, nat), Result>,
                    key: (nat, nat), result: Result)
    requires ResultsShow(rows, queues, results) && key !in results && Known(queues, key)
    requires var id := queues[key.0].arrivals[key.1];
             if result.Inserted? then rows' == rows + [Row(id, Of(key.0, key.1))]
             else rows' == rows && (result == Refused(DUPLICATE_KEY) ==> HasRow(rows, id))
    ensures ResultsShow(rows', queues, results[key := result])
  {
    assert forall id :: HasRow(rows, id) ==> HasRow(rows', id) by {
      forall id | HasRow(rows, id)
        ensures HasRow(rows', id)
      {
        var i :| 0 <= i < |rows| && rows[i].id == id;
        assert rows'[i].id == id;
      }
    }
    assert forall i :: 0 <= i < |rows| ==> rows'[i] == rows[i];
    if result.Inserted? {
      assert rows'[|rows|] == Row(queues[key.0].arrivals[key.1], Of(key.0, key.1));
    }
  }

  lemma AnswerTruthful(s: Store, q: nat, k: nat, outcome: Outcome)
    requires StoreInv(s) && q < |s.queues| && k < |s.queues[q].sent| && !s.queues[q].sent[k].answered
    requires s.queues[q].inFlight > 0 && Faithful(s, q, k, outcome)
    ensures Truthful(q, Answer(s.queues[q], k, outcome).settled, s.results)
  {
    hide Inv, ResultsShow, OneRowPerId, Reports, VerdictAt, Normalise;
    var queue := s.queues[q];
    var verdicts := Verdicts(queue.sent[k].items, outcome);
    assert Answer(queue, k, outcome).settled == queue.settled + verdicts;
    assert Truthful(q, queue.settled, s.results);
    forall i | 0 <= i < |verdicts| && verdicts[i].verdict != Rejected
      ensures var key := (q, verdicts[i].caller);
              key in s.results
              && s.results[key] == if verdicts[i].verdict == Stored then Inserted else Refused(DUPLICATE_KEY)
    {
      VerdictIsAboutTheDocument(outcome, i);
      assert !WholeBatchFailed(outcome);
      ReportedVerdict(outcome, i, s.results[(q, verdicts[i].caller)]);
    }
  }

  lemma ReportedVerdict(outcome: Outcome, i: nat, result: Result)
    requires WholeBatchFailed(outcome) || Reports(ErrorsOf(outcome), i, result)
    ensures VerdictAt(outcome, i) == Stored ==> result == Inserted
    ensures VerdictAt(outcome, i) == Duplicate ==> result == Refused(DUPLICATE_KEY)
  {
    hide Normalise, VerdictAt, Reports;
    if WholeBatchFailed(outcome) {
      VerdictIsAboutTheDocument(outcome, i);
    } else {
      ReportedIsDeserved(outcome, i, result);
    }
  }

  lemma NextKeeps(s: Store, step: Step)
    requires StoreInv(s)
    ensures StoreInv(Next(s, step))
  {
    hide Inv, ResultsShow, Truthful, Faithful, Answer, Insert, Tick, Apply;
    match step
    case Arrives(q, id) =>
      if q < |s.queues| {
        InsertKeeps(s.queues[q], id);
        OnlyArrivals(s.queues[q], id);
        QueueMoves(s, q, Insert(s.queues[q], id));
      }
    case RunsCallback(q) =>
      if q < |s.queues| && s.queues[q].ticks > 0 {
        TickKeeps(s.queues[q]);
        OnlyArrivals(s.queues[q], "");
        QueueMoves(s, q, Tick(s.queues[q]));
      }
    case Applies(q, k, i, fault) =>
      if IsItem(s, q, k, i) {
        ItemIsItsCaller(s.queues[q], k, i);
        ApplyKeeps(s, q, s.queues[q].sent[k].items[i], fault);
      }
    case Answers(q, k, outcome) =>
      if Next(s, step) != s {
        AnswerKeeps(s.queues[q], k, outcome);
        AnswerTruthful(s, q, k, outcome);
        OnlySettles(s.queues[q], k, outcome);
        QueueMoves(s, q, Answer(s.queues[q], k, outcome));
      }
    case WrittenElsewhere(id) =>
      if !HasRow(s.rows, id) {
        OutsideRow(s, id);
      }
  }

  lemma OnlyArrivals(q: Queue, id: Id)
    ensures Insert(q, id).arrivals == q.arrivals + [id] && Insert(q, id).settled == q.settled
    ensures q.ticks > 0 ==> Tick(q).arrivals == q.arrivals && Tick(q).settled == q.settled
  {}

  lemma OnlySettles(q: Queue, k: nat, outcome: Outcome)
    requires k < |q.sent| && !q.sent[k].answered && q.inFlight > 0
    ensures Answer(q, k, outcome).arrivals == q.arrivals
  {}

  lemma OutsideRow(s: Store, id: Id)
    requires StoreInv(s) && !HasRow(s.rows, id)
    ensures StoreInv(s.(rows := s.rows + [Row(id, Outside)]))
  {
    hide Inv, Truthful;
    var rows' := s.rows + [Row(id, Outside)];
    forall x | HasRow(s.rows, x)
      ensures HasRow(rows', x)
    {
      var i :| 0 <= i < |s.rows| && s.rows[i].id == x;
      assert rows'[i].id == x;
    }
  }

  /** What one document's caller is to be told. */
  function Deserved(result: Result): Verdict {
    match result
    case Inserted => Stored
    case Refused(code) => if code == 11000 then Duplicate else Rejected
  }

  /**
   An answer settles every caller of its batch, in order: each is told what became of its
   document, or, when the write failed as a whole, that it was rejected.
   */
  lemma EveryoneIsTold(s: Store, q: nat, k: nat, outcome: Outcome)
    requires StoreInv(s) && q < |s.queues| && k < |s.queues[q].sent| && !s.queues[q].sent[k].answered
    requires Faithful(s, q, k, outcome)
    ensures var t, items := Next(s, Answers(q, k, outcome)), s.queues[q].sent[k].items;
            && |t.queues| == |s.queues| && t.rows == s.rows && t.results == s.results
            && exists told: seq<Settlement> :: t.queues[q].settled == s.queues[q].settled + told
                 && |told| == |items|
                 && forall i :: 0 <= i < |items| ==>
                      && told[i].caller == items[i].caller
                      && told[i].verdict == if WholeBatchFailed(outcome) then Rejected
                                            else Deserved(s.results[(q, items[i].caller)])
  {
    hide ResultsShow, OneRowPerId, Reports, VerdictAt, Normalise, Truthful, Drain, Deserved;
    var queue := s.queues[q];
    assert Inv(queue);
    AnswerIsCounted(queue, k, outcome);
    var told := Verdicts(queue.sent[k].items, outcome);
    assert Answer(queue, k, outcome).settled == queue.settled + told by { DrainSettlesNobody(queue, k, outcome); }
    forall i | 0 <= i < |told|
      ensures told[i].verdict == if WholeBatchFailed(outcome) then Rejected
                                 else Deserved(s.results[(q, told[i].caller)])
    {
      if WholeBatchFailed(outcome) {
        VerdictIsAboutTheDocument(outcome, i);
      } else {
        ReportedIsDeserved(outcome, i, s.results[(q, told[i].caller)]);
      }
    }
  }

  lemma DrainSettlesNobody(q: Queue, k: nat, outcome: Outcome)
    requires k < |q.sent| && !q.sent[k].answered && q.inFlight > 0
    ensures Answer(q, k, outcome).settled == q.settled + Verdicts(q.sent[k].items, outcome)
  {}

  lemma ReportedIsDeserved(outcome: Outcome, i: nat, result: Result)
    requires !WholeBatchFailed(outcome) && Reports(ErrorsOf(outcome), i, result)
    ensures VerdictAt(outcome, i) == Deserved(result)
  {
    hide Normalise, VerdictAt;
    VerdictIsAboutTheDocument(outcome, i);
    if result.Refused? {
      var errors := ErrorsOf(outcome);
      var e :| 0 <= e < |errors| && LastAbout(errors, i, e) && errors[e].code == result.code;
    }
  }

  /** The errors the server lists for the first n documents of a batch it has dealt with. */
  function Listed(items: seq<Item>, q: nat, results: map<(nat, nat), Result>, n: nat): seq<WriteError>
    requires n <= |items| && forall i :: 0 <= i < n ==> (q, items[i].caller) in results
  {
    if n == 0 then []
    else
      var before := Listed(items, q, results, n - 1);
      match results[(q, items[n - 1].caller)]
      case Inserted => before
      case Refused(code) => before + [WriteError(n - 1, code)]
  }

  lemma {:induction false} ListedReports(items: seq<Item>, q: nat, results: map<(nat, nat), Result>, n: nat, i: nat)
    requires n <= |items| && forall i :: 0 <= i < n ==> (q, items[i].caller) in results
    ensures i < n ==> Reports(Listed(items, q, results, n), i, results[(q, items[i].caller)])
    ensures i >= n ==> Reports(Listed(items, q, results, n), i, Inserted)
  {
    if n > 0 {
      ListedReports(items, q, results, n - 1, i);
      var before, result := Listed(items, q, results, n - 1), results[(q, items[n - 1].caller)];
      if i == n - 1 && result.Refused? {
        assert LastAbout(Listed(items, q, results, n), i, |before|);
      } else if i < n && results[(q, items[i].caller)].Refused? {
        var code := results[(q, items[i].caller)].code;
        var e :| 0 <= e < |before| && LastAbout(before, i, e) && before[e].code == code;
        assert LastAbout(Listed(items, q, results, n), i, e);
      }
    }
  }

  /** Once every document of a batch has been dealt with there is an answer that lists what happened. */
  lemma AnswerCanBeGiven(s: Store, q: nat, k: nat)
    requires q < |s.queues| && k < |s.queues[q].sent|
    requires forall i :: 0 <= i < |s.queues[q].sent[k].items| ==>
               (q, s.queues[q].sent[k].items[i].caller) in s.results
    ensures exists outcome :: !WholeBatchFailed(outcome) && Faithful(s, q, k, outcome)
  {
    hide Reports;
    var items := s.queues[q].sent[k].items;
    var errors := Listed(items, q, s.results, |items|);
    var raw := seq(|errors|, e requires 0 <= e < |errors| => RawError(None, errors[e]));
    var outcome := if errors == [] then Acknowledged else Failed(Many(raw));
    assert ErrorsOf(outcome) == errors;
    forall i | 0 <= i < |items|
      ensures Reports(ErrorsOf(outcome), i, s.results[(q, items[i].caller)])
    {
      ListedReports(items, q, s.results, |items|, i);
    }
    assert !WholeBatchFailed(outcome) && Faithful(s, q, k, outcome);
  }

  /** An id written from outside has a row from then on, and any document of ours under it is a duplicate. */
  lemma ForeignRowsCount(s: Store, id: Id, q: nat, item: Item)
    requires item.id == id && (q, item.caller) !in s.results
    ensures var t := Next(s, WrittenElsewhere(id));
            && s.rows <= t.rows && |t.rows| <= |s.rows| + 1 && t.queues == s.queues && t.results == s.results
            && (t.rows == s.rows <==> exists i :: 0 <= i < |s.rows| && s.rows[i].id == id)
            && Apply(t, q, item, None).results[(q, item.caller)] == Refused(11000)
  {
    var t := Next(s, WrittenElsewhere(id));
    if !HasRow(s.rows, id) {
      assert t.rows[|s.rows|].id == id;
    }
  }

  function Run(s: Store, steps: seq<Step>): Store
    requires StoreInv(s)
    ensures StoreInv(Run(s, steps))
    decreases |steps|
  {
    if steps == [] then s
    else
      NextKeeps(s, steps[0]);
      Run(Next(s, steps[0]), steps[1..])
  }

  // ---------------------------------------------------------------- Verdicts

  predicate Told(s: Store, q: nat, caller: nat, verdict: Verdict) {
    q < |s.queues| && Settlement(caller, verdict) in s.queues[q].settled
  }

  /** A resolved caller's message is in the collection. */
  lemma ResolvedMeansStored(s: Store, q: nat, caller: nat, verdict: Verdict)
    requires StoreInv(s) && Told(s, q, caller, verdict) && verdict != Rejected
    ensures caller < |s.queues[q].arrivals|
    ensures HasRow(s.rows, IdOf(s, q, caller))
  {
    hide Inv;
    assert Truthful(q, s.queues[q].settled, s.results);
    var i :| 0 <= i < |s.queues[q].settled| && s.queues[q].settled[i] == Settlement(caller, verdict);
    assert (q, caller) in s.results;
    if verdict == Stored {
      var j :| 0 <= j < |s.rows| && s.rows[j] == Row(IdOf(s, q, caller), Of(q, caller));
    }
  }

  /** The row under a resolved caller's id is its own exactly when it was not told it was a duplicate. */
  lemma DuplicateMeansSomeoneElse(s: Store, q: nat, caller: nat, verdict: Verdict)
    requires StoreInv(s) && Told(s, q, caller, verdict) && verdict != Rejected
    ensures caller < |s.queues[q].arrivals|
    ensures verdict == Stored <==> Row(IdOf(s, q, caller), Of(q, caller)) in s.rows
  {
    hide Inv;
    assert Truthful(q, s.queues[q].settled, s.results);
    var i :| 0 <= i < |s.queues[q].settled| && s.queues[q].settled[i] == Settlement(caller, verdict);
    assert (q, caller) in s.results;
    if j :| 0 <= j < |s.rows| && s.rows[j] == Row(IdOf(s, q, caller), Of(q, caller)) {
      assert s.rows[j].owner.Of?;
    }
  }

  /** Of everyone who ever sent an id, on any back end, at most one is told it was stored. */
  lemma AtMostOneIsToldStored(s: Store, q1: nat, c1: nat, q2: nat, c2: nat)
    requires StoreInv(s) && Told(s, q1, c1, Stored) && Told(s, q2, c2, Stored)
    requires c1 < |s.queues[q1].arrivals| && c2 < |s.queues[q2].arrivals| && IdOf(s, q1, c1) == IdOf(s, q2, c2)
    ensures q1 == q2 && c1 == c2
  {
    hide Inv;
    DuplicateMeansSomeoneElse(s, q1, c1, Stored);
    DuplicateMeansSomeoneElse(s, q2, c2, Stored);
    var i :| 0 <= i < |s.rows| && s.rows[i] == Row(IdOf(s, q1, c1), Of(q1, c1));
    var j :| 0 <= j < |s.rows| && s.rows[j] == Row(IdOf(s, q2, c2), Of(q2, c2));
    assert i == j;
  }
}
