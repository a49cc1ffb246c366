/**
 The queue that groups concurrent inserts into bulk writes: on values, as the
 class whose methods are the event-loop turns, and over every run of both.
 */
module WriteQueues {
  import opened Collections

  type Id = string

  /** A queued document and the promise of whoever queued it, named by its arrival number. */
  datatype Item = Item(id: Id, caller: nat)

  datatype Verdict = Stored | Duplicate | Rejected

  /** A per-document error of a bulk write. */
  datatype WriteError = WriteError(index: nat, code: int)

  const DUPLICATE_KEY: int := 11000

  // ------------------------------------------------------------- Error shapes

  /** An entry carries its fields itself, or an inner error that carries them. */
  datatype RawError = RawError(err: Option<WriteError>, own: WriteError)

  /** The error object as the driver throws it: `writeErrors` absent, a single entry, or a list. */
  datatype RawErrors = Absent | One(entry: RawError) | Many(entries: seq<RawError>)

  /** How a bulk write ended: without an exception, or with one. */
  datatype Outcome = Acknowledged | Failed(raw: RawErrors)

  function Inner(entry: RawError): WriteError {
    if entry.err.Some? then entry.err.value else entry.own
  }

  function ListOf(raw: RawErrors): seq<RawError> {
    match raw
    case Absent => []
    case One(entry) => [entry]
    case Many(entries) => entries
  }

  function Normalise(raw: RawErrors): seq<WriteError> {
    var list := ListOf(raw);
    seq(|list|, i requires 0 <= i < |list| => Inner(list[i]))
  }

  function ErrorsOf(outcome: Outcome): seq<WriteError> {
    match outcome
    case Acknowledged => []
    case Failed(raw) => Normalise(raw)
  }

  // ----------------------------------------------------------------- Verdicts

  /** The last error recorded against an index, as a map filled in order keeps it. */
  function ErrorAt(errors: seq<WriteError>, index: nat): Option<WriteError> {
    if errors == [] then None
    else if errors[|errors| - 1].index == index then Some(errors[|errors| - 1])
    else ErrorAt(errors[..|errors| - 1], index)
  }

  function VerdictAt(outcome: Outcome, index: nat): Verdict {
    match outcome
    case Acknowledged => Stored
    case Failed(raw) =>
      if Normalise(raw) == [] then Rejected
      else
        match ErrorAt(Normalise(raw), index)
        case None => Stored
        case Some(e) => if e.code == DUPLICATE_KEY then Duplicate else Rejected
  }

  /** Entry k is the last of the errors about this document. */
  predicate LastAbout(errors: seq<WriteError>, index: nat, k: int) {
    && 0 <= k < |errors| && errors[k].index == index
    && forall l :: k < l < |errors| ==> errors[l].index != index
  }

  lemma {:induction false} ErrorAtIsTheLast(errors: seq<WriteError>, index: nat)
    ensures ErrorAt(errors, index).None? <==> forall k :: 0 <= k < |errors| ==> errors[k].index != index
    ensures forall k :: LastAbout(errors, index, k) ==> ErrorAt(errors, index) == Some(errors[k])
  {
    if errors != [] && errors[|errors| - 1].index != index {
      var before := errors[..|errors| - 1];
      ErrorAtIsTheLast(before, index);
      forall k | LastAbout(errors, index, k)
        ensures ErrorAt(errors, index) == Some(errors[k])
      {
        assert LastAbout(before, index, k);
      }
    }
  }

  /**
   What the caller of document i is told: that it was stored if the write went through
   or its error names other documents only; otherwise what the last entry about it says;
   and that it was rejected if the error names no document at all.
   */
  lemma VerdictIsAboutTheDocument(outcome: Outcome, i: nat)
    ensures outcome.Acknowledged? ==> VerdictAt(outcome, i) == Stored
    ensures outcome.Failed? ==>
              var e := Normalise(outcome.raw);
              && (e == [] ==> VerdictAt(outcome, i) == Rejected)
              && (e != [] ==> (VerdictAt(outcome, i) == Stored <==> forall k :: 0 <= k < |e| ==> e[k].index != i))
              && forall k :: LastAbout(e, i, k) ==>
                   VerdictAt(outcome, i) == if e[k].code == 11000 then Duplicate else Rejected
  {
    hide Normalise, ErrorAt;
    if outcome.Failed? {
      ErrorAtIsTheLast(Normalise(outcome.raw), i);
    }
  }

  /** An error is read from its wrapper if it has one, and one error alone is a list of one. */
  lemma NormaliseReadsThrough(err: WriteError, own: WriteError, raw: RawErrors, k: nat)
    ensures Normalise(One(RawError(Some(err), own))) == [err] && Normalise(One(RawError(None, own))) == [own]
    ensures raw.Many? && k < |raw.entries| ==>
              |Normalise(raw)| == |raw.entries| && [Normalise(raw)[k]] == Normalise(One(raw.entries[k]))
  {
    assert Normalise(One(RawError(Some(err), own)))[0] == err && Normalise(One(RawError(None, own)))[0] == own;
    if raw.Many? && k < |raw.entries| {
      assert Normalise(One(raw.entries[k]))[0] == Normalise(raw)[k];
    }
  }

  /** An answered promise. */
  datatype Settlement = Settlement(caller: nat, verdict: Verdict)

  function Verdicts(batch: seq<Item>, outcome: Outcome): (r: seq<Settlement>)
    ensures |r| == |batch|
    ensures forall i :: 0 <= i < |batch| ==> r[i] == Settlement(batch[i].caller, VerdictAt(outcome, i))
  {
    seq(|batch|, i requires 0 <= i < |batch| => Settlement(batch[i].caller, VerdictAt(outcome, i)))
  }

  function CountDuplicates(s: seq<Settlement>): nat {
    if s == [] then 0 else (if s[0].verdict == Duplicate then 1 else 0) + CountDuplicates(s[1..])
  }

  predicate WholeBatchFailed(outcome: Outcome) {
    outcome.Failed? && ErrorsOf(outcome) == []
  }

  // -------------------------------------------------------------------- State

  /** A bulk write sent to the database: what was in it, and whether its answer has been dealt with. */
  datatype Sent = Sent(items: seq<Item>, answered: bool)

  /** `ticks` counts flush callbacks handed to the event loop; `sent` is every bulk write so far, in order. */
  datatype Queue = Queue(
    pending: seq<Item>,
    scheduled: bool,
    ticks: nat,
    inFlight: nat,
    sent: seq<Sent>,
    settled: seq<Settlement>,
    arrivals: seq<Id>,
    depth: nat,
    batches: nat,
    documents: nat,
    duplicates: nat,
    maxBatch: nat,
    maxInFlight: nat)

  function EmptyQueue(maxBatch: nat, maxInFlight: nat): Queue {
    Queue([], false, 0, 0, [], [], [], 0, 0, 0, 0, maxBatch, maxInFlight)
  }

  /** flush(), up to the bulk write it awaits. */
  function Flush(q: Queue): Queue {
    var u := q.(scheduled := false);
    if q.pending == [] || q.inFlight >= q.maxInFlight then u
    else
      var n := if |q.pending| > q.maxBatch then q.maxBatch else |q.pending|;
      u.(pending := q.pending[n..], depth := |q.pending| - n, inFlight := q.inFlight + 1,
         sent := q.sent + [Sent(q.pending[..n], false)])
  }

  /** A document joins the queue; nothing is sent yet. */
  function Joined(q: Queue, id: Id): Queue {
    q.(pending := q.pending + [Item(id, |q.arrivals|)], arrivals := q.arrivals + [id], depth := |q.pending| + 1)
  }

  function Insert(q: Queue, id: Id): Queue {
    var u := Joined(q, id);
    if |u.pending| >= q.maxBatch then Flush(u)
    else if !q.scheduled then u.(scheduled := true, ticks := q.ticks + 1)
    else u
  }

  /** The event loop runs a flush callback. */
  function Tick(q: Queue): Queue
    requires q.ticks > 0
  {
    Flush(q.(ticks := q.ticks - 1))
  }

  function Drain(q: Queue): Queue {
    if q.pending == [] || q.scheduled || q.inFlight >= q.maxInFlight then q
    else q.(scheduled := true, ticks := q.ticks + 1)
  }

  /** flush(), from the answer to bulk write `k` onwards. */
  function Answer(q: Queue, k: nat, outcome: Outcome): Queue
    requires k < |q.sent| && !q.sent[k].answered && q.inFlight > 0
  {
    var batch := q.sent[k].items;
    var verdicts := Verdicts(batch, outcome);
    var u := q.(inFlight := q.inFlight - 1, sent := q.sent[k := Sent(batch, true)], settled := q.settled + verdicts);
    Drain(if WholeBatchFailed(outcome) then u
          else u.(batches := q.batches + 1, documents := q.documents + |batch|,
                  duplicates := q.duplicates + CountDuplicates(verdicts)))
  }

  // --------------------------------------------------------------- Invariants

  function SentItems(sent: seq<Sent>): seq<Item> {
    if sent == [] then [] else sent[0].items + SentItems(sent[1..])
  }

  function Open(sent: seq<Sent>): nat {
    if sent == [] then 0 else (if sent[0].answered then 0 else 1) + Open(sent[1..])
  }

  function Callers(items: seq<Item>): multiset<nat> {
    if items == [] then multiset{} else multiset{items[0].caller} + Callers(items[1..])
  }

  function OpenCallers(sent: seq<Sent>): multiset<nat> {
    if sent == [] then multiset{}
    else (if sent[0].answered then multiset{} else Callers(sent[0].items)) + OpenCallers(sent[1..])
  }

  function SettledCallers(s: seq<Settlement>): multiset<nat> {
    if s == [] then multiset{} else multiset{s[0].caller} + SettledCallers(s[1..])
  }

  /** Everyone who ever called: each once. */
  function Everyone(n: nat): multiset<nat> {
    if n == 0 then multiset{} else Everyone(n - 1) + multiset{n - 1}
  }

  /** Batches are consecutive slices of arrival order, of size 1 to maxBatch, and what waits is the rest. */
  ghost predicate Ordered(q: Queue) {
    && Numbered(SentItems(q.sent) + q.pending, q.arrivals)
    && (forall k :: 0 <= k < |q.sent| ==> 1 <= |q.sent[k].items| <= q.maxBatch)
  }

  ghost predicate Numbered(all: seq<Item>, arrivals: seq<Id>) {
    && |all| == |arrivals|
    && forall i :: 0 <= i < |all| ==> all[i] == Item(arrivals[i], i)
  }

  /** Each caller is in exactly one of: waiting, in one bulk write, answered. */
  ghost predicate Conserved(q: Queue) {
    Callers(q.pending) + OpenCallers(q.sent) + SettledCallers(q.settled) == Everyone(|q.arrivals|)
  }

  /** No lost wake-up. */
  ghost predicate Awake(q: Queue) {
    && q.depth == |q.pending|
    && q.inFlight == Open(q.sent) <= q.maxInFlight
    && (q.pending != [] ==> q.scheduled || q.inFlight >= 1)
    && (q.scheduled ==> q.ticks >= 1)
  }

  ghost predicate Inv(q: Queue) {
    && q.maxBatch >= 1 && q.maxInFlight >= 1
    && Ordered(q) && Conserved(q) && Awake(q)
    && q.duplicates <= q.documents
  }

  lemma EmptyInv(maxBatch: nat, maxInFlight: nat)
    requires maxBatch >= 1 && maxInFlight >= 1
    ensures Inv(EmptyQueue(maxBatch, maxInFlight))
  {}

  lemma {:induction false} CallersAppend(a: seq<Item>, b: seq<Item>)
    ensures Callers(a + b) == Callers(a) + Callers(b)
  {
    if a == [] {
      assert a + b == b;
    } else {
      assert (a + b)[0] == a[0] && (a + b)[1..] == a[1..] + b;
      CallersAppend(a[1..], b);
    }
  }

  lemma {:induction false} SettledAppend(a: seq<Settlement>, b: seq<Settlement>)
    ensures SettledCallers(a + b) == SettledCallers(a) + SettledCallers(b)
  {
    if a == [] {
      assert a + b == b;
    } else {
      assert (a + b)[0] == a[0] && (a + b)[1..] == a[1..] + b;
      SettledAppend(a[1..], b);
    }
  }

  lemma {:induction false} SentAppend(sent: seq<Sent>, s: Sent)
    ensures SentItems(sent + [s]) == SentItems(sent) + s.items
    ensures Open(sent + [s]) == Open(sent) + (if s.answered then 0 else 1)
    ensures OpenCallers(sent + [s]) == OpenCallers(sent) + (if s.answered then multiset{} else Callers(s.items))
  {
    if sent == [] {
      assert sent + [s] == [s] && [s][1..] == [];
      assert s.items + [] == s.items;
    } else {
      assert (sent + [s])[0] == sent[0] && (sent + [s])[1..] == sent[1..] + [s];
      SentAppend(sent[1..], s);
    }
  }

  lemma {:induction false} SentAnswered(sent: seq<Sent>, k: nat)
    requires k < |sent| && !sent[k].answered
    ensures var after := sent[k := Sent(sent[k].items, true)];
            && SentItems(after) == SentItems(sent)
            && Open(after) == Open(sent) - 1
            && OpenCallers(sent) == OpenCallers(after) + Callers(sent[k].items)
  {
    var after := sent[k := Sent(sent[k].items, true)];
    if k == 0 {
      assert after[1..] == sent[1..];
    } else {
      assert after[0] == sent[0] && after[1..] == sent[1..][k - 1 := Sent(sent[k].items, true)];
      SentAnswered(sent[1..], k - 1);
    }
  }

  lemma {:induction false} VerdictsSettle(batch: seq<Item>, verdicts: seq<Settlement>)
    requires |batch| == |verdicts| && forall i :: 0 <= i < |batch| ==> verdicts[i].caller == batch[i].caller
    ensures SettledCallers(verdicts) == Callers(batch)
    ensures CountDuplicates(verdicts) <= |batch|
  {
    if batch != [] {
      VerdictsSettle(batch[1..], verdicts[1..]);
    }
  }

  /** What Inv says apart from who will wake the queue. */
  ghost predicate Sound(q: Queue) {
    && q.maxBatch >= 1 && q.maxInFlight >= 1
    && Ordered(q) && Conserved(q)
    && q.depth == |q.pending|
    && q.inFlight == Open(q.sent) <= q.maxInFlight
    && q.duplicates <= q.documents
  }

  lemma FlushOrdered(q: Queue)
    requires Ordered(q) && q.maxBatch >= 1
    ensures Ordered(Flush(q))
  {
    hide SentItems, Numbered;
    if q.pending != [] && q.inFlight < q.maxInFlight {
      var n: nat := if |q.pending| > q.maxBatch then q.maxBatch else |q.pending|;
      SentAppend(q.sent, Sent(q.pending[..n], false));
      assert q.pending == q.pending[..n] + q.pending[n..];
      assert SentItems(Flush(q).sent) + q.pending[n..] == SentItems(q.sent) + q.pending;
    }
  }

  lemma FlushConserved(q: Queue)
    requires Conserved(q) && q.maxBatch >= 1
    ensures Conserved(Flush(q))
  {
    hide Callers, OpenCallers, SettledCallers, Everyone;
    if q.pending != [] && q.inFlight < q.maxInFlight {
      var n := if |q.pending| > q.maxBatch then q.maxBatch else |q.pending|;
      SentAppend(q.sent, Sent(q.pending[..n], false));
      CallersAppend(q.pending[..n], q.pending[n..]);
      assert q.pending == q.pending[..n] + q.pending[n..];
    }
  }

  lemma FlushKeeps(q: Queue)
    requires Sound(q)
    ensures Sound(Flush(q))
    ensures !Flush(q).scheduled && Flush(q).ticks == q.ticks
    ensures Flush(q).pending != [] ==> Flush(q).inFlight >= 1
  {
    hide Ordered, Conserved, Open;
    FlushOrdered(q);
    FlushConserved(q);
    var n := if |q.pending| > q.maxBatch then q.maxBatch else |q.pending|;
    SentAppend(q.sent, Sent(q.pending[..n], false));
  }

  lemma JoinedKeeps(q: Queue, id: Id)
    requires Ordered(q) && Conserved(q)
    ensures Ordered(Joined(q, id)) && Conserved(Joined(q, id))
  {
    hide Ordered, Conserved;
    JoinedOrdered(q, id);
    JoinedConserved(q, id);
  }

  lemma JoinedOrdered(q: Queue, id: Id)
    requires Ordered(q)
    ensures Ordered(Joined(q, id))
  {
    hide SentItems;
    var item := Item(id, |q.arrivals|);
    assert SentItems(q.sent) + (q.pending + [item]) == (SentItems(q.sent) + q.pending) + [item];
  }

  lemma JoinedConserved(q: Queue, id: Id)
    requires Conserved(q)
    ensures Conserved(Joined(q, id))
  {
    hide OpenCallers, SettledCallers;
    var item := Item(id, |q.arrivals|);
    CallersAppend(q.pending, [item]);
    assert Callers([item]) == multiset{item.caller} + Callers([]);
  }

  /** Order and conservation speak of the documents only. */
  lemma SameDocuments(q: Queue, p: Queue)
    requires q.pending == p.pending && q.arrivals == p.arrivals && q.maxBatch == p.maxBatch
    requires SentItems(q.sent) == SentItems(p.sent) && |q.sent| == |p.sent|
    requires forall k :: 0 <= k < |q.sent| ==> q.sent[k].items == p.sent[k].items
    ensures Ordered(q) ==> Ordered(p)
    ensures Conserved(q) && q.sent == p.sent && q.settled == p.settled ==> Conserved(p)
  {}

  lemma InsertKeeps(q: Queue, id: Id)
    requires Inv(q)
    ensures Inv(Insert(q, id))
  {
    hide Ordered, Conserved, Open;
    JoinedKeeps(q, id);
    FlushKeeps(Joined(q, id));
    SameDocuments(Joined(q, id), Joined(q, id).(scheduled := true, ticks := q.ticks + 1));
  }

  lemma TickKeeps(q: Queue)
    requires Inv(q) && q.ticks > 0
    ensures Inv(Tick(q))
  {
    hide Ordered, Conserved, Open;
    SameDocuments(q, q.(ticks := q.ticks - 1));
    FlushKeeps(q.(ticks := q.ticks - 1));
  }

  lemma {:induction false} OpenIsCounted(sent: seq<Sent>, k: nat)
    requires k < |sent| && !sent[k].answered
    ensures Open(sent) > 0
  {
    if k > 0 {
      OpenIsCounted(sent[1..], k - 1);
    }
  }

  lemma AnswerOrdered(q: Queue, k: nat, outcome: Outcome)
    requires Ordered(q) && k < |q.sent| && !q.sent[k].answered && q.inFlight > 0
    ensures Ordered(Answer(q, k, outcome))
  {
    hide SentItems, Verdicts, CountDuplicates, Numbered, VerdictAt, WholeBatchFailed, Callers, OpenCallers, Open;
    SentAnswered(q.sent, k);
    var t := Answer(q, k, outcome);
    assert t.sent == q.sent[k := Sent(q.sent[k].items, true)];
    assert t.pending == q.pending && t.arrivals == q.arrivals && t.maxBatch == q.maxBatch;
  }

  lemma AnswerConserved(q: Queue, k: nat, outcome: Outcome)
    requires Conserved(q) && k < |q.sent| && !q.sent[k].answered && q.inFlight > 0
    ensures Conserved(Answer(q, k, outcome))
  {
    hide Callers, OpenCallers, SettledCallers, Everyone, CountDuplicates;
    var batch := q.sent[k].items;
    SentAnswered(q.sent, k);
    VerdictsSettle(batch, Verdicts(batch, outcome));
    SettledAppend(q.settled, Verdicts(batch, outcome));
  }

  lemma AnswerAwake(q: Queue, k: nat, outcome: Outcome)
    requires Awake(q) && k < |q.sent| && !q.sent[k].answered && q.inFlight > 0
    ensures Awake(Answer(q, k, outcome))
  {
    hide Open, Verdicts, CountDuplicates;
    SentAnswered(q.sent, k);
  }

  lemma AnswerKeeps(q: Queue, k: nat, outcome: Outcome)
    requires Inv(q) && k < |q.sent| && !q.sent[k].answered
    ensures q.inFlight > 0
    ensures Inv(Answer(q, k, outcome))
  {
    hide Ordered, Conserved, Open, CountDuplicates, Verdicts;
    OpenIsCounted(q.sent, k);
    AnswerOrdered(q, k, outcome);
    AnswerConserved(q, k, outcome);
    AnswerAwake(q, k, outcome);
    VerdictsSettle(q.sent[k].items, Verdicts(q.sent[k].items, outcome));
  }

  /**
   A failed bulk write whose error names no document, whatever the shape of that
   error, is the one that is not counted, and then every caller in it is rejected.
   One that names any document is counted, and its callers are told one by one.
   */
  lemma BatchRejectedAsAWhole(q: Queue, k: nat, raw: RawErrors)
    requires Inv(q) && k < |q.sent| && !q.sent[k].answered
    ensures q.inFlight > 0
    ensures Answer(q, k, Failed(raw)).documents == q.documents <==> raw.Absent? || raw == Many([])
    ensures var t := Answer(q, k, Failed(raw));
            t.settled == q.settled + Verdicts(q.sent[k].items, Failed(raw))
            && (t.documents == q.documents ==> t.duplicates == q.duplicates && t.batches == q.batches)
    ensures forall i :: 0 <= i < |q.sent[k].items| ==>
              var verdict := Verdicts(q.sent[k].items, Failed(raw))[i].verdict;
              if raw.Absent? || raw == Many([]) then verdict == Rejected
              else verdict == Stored <==> ErrorAt(Normalise(raw), i).None?
  {
    hide SentItems, Numbered, Conserved, CountDuplicates, Open, ErrorAt;
    OpenIsCounted(q.sent, k);
    assert |q.sent[k].items| >= 1;
    EmptyList(raw);
  }

  lemma EmptyList(raw: RawErrors)
    ensures Normalise(raw) == [] <==> raw.Absent? || raw == Many([])
  {}

  function VerdictsOf(s: seq<Settlement>): seq<Verdict> {
    seq(|s|, i requires 0 <= i < |s| => s[i].verdict)
  }

  lemma {:induction false} CountIsMultiplicity(s: seq<Settlement>)
    ensures CountDuplicates(s) == multiset(VerdictsOf(s))[Duplicate]
  {
    if s != [] {
      CountIsMultiplicity(s[1..]);
      assert VerdictsOf(s) == [s[0].verdict] + VerdictsOf(s[1..]);
    }
  }

  /** What the counters have gained by an answer: the batch, its documents, and those told they were duplicates. */
  lemma AnswerIsCounted(q: Queue, k: nat, outcome: Outcome)
    requires Inv(q) && k < |q.sent| && !q.sent[k].answered
    ensures q.inFlight > 0
    ensures var t, batch := Answer(q, k, outcome), q.sent[k].items;
            if outcome.Failed? && (outcome.raw.Absent? || outcome.raw == Many([]))
            then t.batches == q.batches && t.documents == q.documents && t.duplicates == q.duplicates
            else t.batches == q.batches + 1 && t.documents == q.documents + |batch|
                 && t.duplicates == q.duplicates + multiset(VerdictsOf(Verdicts(batch, outcome)))[Duplicate]
  {
    hide Inv, Verdicts, CountDuplicates, Normalise, VerdictsOf;
    AnswerKeeps(q, k, outcome);
    CountIsMultiplicity(Verdicts(q.sent[k].items, outcome));
    if outcome.Failed? {
      EmptyList(outcome.raw);
    }
  }

  /** A flush with something waiting and a slot free sends one batch, the oldest documents, and as many as it may. */
  lemma FlushSendsWhatItCan(q: Queue)
    requires q.maxBatch >= 1
    ensures Flush(q).sent != q.sent <==> q.pending != [] && q.inFlight < q.maxInFlight
    ensures var t := Flush(q);
            t.sent != q.sent ==>
              && |t.sent| == |q.sent| + 1 && t.sent[..|q.sent|] == q.sent && !t.sent[|q.sent|].answered
              && q.pending == t.sent[|q.sent|].items + t.pending
              && (|t.sent[|q.sent|].items| == q.maxBatch || (|t.sent[|q.sent|].items| < q.maxBatch && t.pending == []))
              && t.inFlight == q.inFlight + 1
    ensures Flush(q).sent == q.sent ==> Flush(q).pending == q.pending && Flush(q).inFlight == q.inFlight
  {}

  /** An arrival sends a batch at once exactly when it fills one and a slot is free; else it waits for one callback. */
  lemma ArrivalSendsAFullBatch(q: Queue, id: Id)
    requires Inv(q)
    ensures var t := Insert(q, id);
            && (t.sent != q.sent <==> |q.pending| + 1 >= q.maxBatch && q.inFlight < q.maxInFlight)
            && (|q.pending| + 1 < q.maxBatch ==>
                  t.scheduled && t.ticks == (if q.scheduled then q.ticks else q.ticks + 1)
                  && t.pending == q.pending + [Item(id, |q.arrivals|)])
  {
    hide Ordered, Conserved, Open;
    FlushSendsWhatItCan(Joined(q, id));
  }

  /** An answer frees a slot, and with anything waiting a callback is outstanding to use it. */
  lemma FreedSlotIsUsed(q: Queue, k: nat, outcome: Outcome)
    requires Inv(q) && k < |q.sent| && !q.sent[k].answered
    ensures q.inFlight > 0
    ensures var t := Answer(q, k, outcome);
            && t.inFlight == q.inFlight - 1
            && (t.pending != [] ==> t.scheduled && t.ticks > 0)
            && t.ticks == (if q.pending == [] || q.scheduled then q.ticks else q.ticks + 1)
  {
    hide Ordered, Conserved, Verdicts, CountDuplicates, Normalise;
    OpenIsCounted(q.sent, k);
  }

  // --------------------------------------------------------------------- Runs

  datatype Event = Arrive(id: Id) | Callback | Reply(batch: nat, outcome: Outcome)

  predicate Enabled(q: Queue, event: Event) {
    match event
    case Arrive(_) => true
    case Callback => q.ticks > 0
    case Reply(k, _) => k < |q.sent| && !q.sent[k].answered && q.inFlight > 0
  }

  function Next(q: Queue, event: Event): Queue {
    if !Enabled(q, event) then q
    else
      match event
      case Arrive(id) => Insert(q, id)
      case Callback => Tick(q)
      case Reply(k, outcome) => Answer(q, k, outcome)
  }

  lemma NextKeeps(q: Queue, event: Event)
    requires Inv(q)
    ensures Inv(Next(q, event))
  {
    if Enabled(q, event) {
      match event
      case Arrive(id) => InsertKeeps(q, id);
      case Callback => TickKeeps(q);
      case Reply(k, outcome) => AnswerKeeps(q, k, outcome);
    }
  }

  function Run(q: Queue, events: seq<Event>): Queue
    requires Inv(q)
    ensures Inv(Run(q, events))
    decreases |events|
  {
    if events == [] then q
    else
      NextKeeps(q, events[0]);
      Run(Next(q, events[0]), events[1..])
  }

  /** How much is left to do. */
  function Work(q: Queue): nat {
    3 * |q.pending| + 2 * q.inFlight + q.ticks
  }

  /** With nothing new arriving, every step brings the end nearer. */
  lemma EveryStepIsProgress(q: Queue, event: Event)
    requires Inv(q) && Enabled(q, event) && !event.Arrive?
    ensures Work(Next(q, event)) < Work(q)
  {}

  lemma {:induction false} EveryoneOnce(n: nat, c: nat)
    ensures Everyone(n)[c] == if c < n then 1 else 0
  {
    if n > 0 {
      EveryoneOnce(n - 1, c);
    }
  }

  lemma {:induction false} NoneOpen(sent: seq<Sent>)
    requires Open(sent) == 0
    ensures OpenCallers(sent) == multiset{}
  {
    if sent != [] {
      NoneOpen(sent[1..]);
    }
  }

  /** A caller is never answered twice. */
  lemma AnsweredAtMostOnce(q: Queue, c: nat)
    requires Inv(q)
    ensures SettledCallers(q.settled)[c] <= 1
  {
    EveryoneOnce(|q.arrivals|, c);
    assert SettledCallers(q.settled)[c] <= Everyone(|q.arrivals|)[c];
  }

  /** When nothing more can happen, every caller has been answered, exactly once. */
  lemma AtRestEveryoneIsAnswered(q: Queue)
    requires Inv(q)
    requires forall e: Event :: Enabled(q, e) ==> e.Arrive?
    ensures q.pending == []
    ensures forall c :: 0 <= c < |q.arrivals| ==> SettledCallers(q.settled)[c] == 1
  {
    assert !Enabled(q, Callback);
    if q.inFlight > 0 {
      var k := SomeOpen(q.sent);
      assert Enabled(q, Reply(k, Acknowledged));
    }
    NoneOpen(q.sent);
    assert Callers([]) == multiset{};
    forall c | 0 <= c < |q.arrivals|
      ensures SettledCallers(q.settled)[c] == 1
    {
      EveryoneOnce(|q.arrivals|, c);
    }
  }

  lemma {:induction false} SomeOpen(sent: seq<Sent>) returns (k: nat)
    requires Open(sent) > 0
    ensures k < |sent| && !sent[k].answered
  {
    if !sent[0].answered {
      k := 0;
    } else {
      k := SomeOpen(sent[1..]);
      k := k + 1;
    }
  }

  /** No run without new arrivals is longer than the work there is. */
  lemma {:induction false} RunsAreBounded(q: Queue, events: seq<Event>)
    requires Inv(q)
    requires forall i :: 0 <= i < |events| ==> !events[i].Arrive?
    requires EachEnabled(q, events)
    ensures |events| + Work(Run(q, events)) <= Work(q)
    decreases |events|
  {
    if events != [] {
      EveryStepIsProgress(q, events[0]);
      NextKeeps(q, events[0]);
      RunsAreBounded(Next(q, events[0]), events[1..]);
    }
  }

  predicate EachEnabled(q: Queue, events: seq<Event>)
    decreases |events|
  {
    events == [] || (Enabled(q, events[0]) && EachEnabled(Next(q, events[0]), events[1..]))
  }

  // ---------------------------------------------------------------- The class

  class WriteQueue {
    const maxBatch: nat
    const maxInFlight: nat
    var pending: seq<Item>
    var scheduled: bool
    var inFlight: nat
    var depth: nat
    var batches: nat
    var documents: nat
    var duplicates: nat

    ghost var ticks: nat
    ghost var sent: seq<Sent>
    var arrivals: nat
    ghost var ids: seq<Id>
    var settled: seq<Settlement>

    ghost function State(): Queue
      reads this
    {
      Queue(pending, scheduled, ticks, inFlight, sent, settled, ids, depth, batches, documents, duplicates,
            maxBatch, maxInFlight)
    }

    ghost predicate Valid()
      reads this
    {
      Inv(State()) && arrivals == |ids|
    }

    constructor (maxBatch: nat, maxInFlight: nat)
      requires maxBatch >= 1 && maxInFlight >= 1
      ensures Valid() && State() == EmptyQueue(maxBatch, maxInFlight)
    {
      this.maxBatch := maxBatch;
      this.maxInFlight := maxInFlight;
      pending, scheduled, inFlight, depth := [], false, 0, 0;
      batches, documents, duplicates := 0, 0, 0;
      ticks, sent, arrivals, ids, settled := 0, [], 0, [], [];
    }

    /** Queues a document. A full batch goes at once; otherwise a flush is scheduled for the end of the turn. */
    method Enqueue(id: Id) returns (taken: Option<seq<Item>>)
      requires Valid()
      modifies this
      ensures Valid() && State() == Insert(old(State()), id)
      ensures taken.Some? ==> sent == old(sent) + [Sent(taken.value, false)]
      ensures taken.None? ==> sent == old(sent)
    {
      hide Inv, Verdicts, CountDuplicates;
      InsertKeeps(State(), id);
      pending := pending + [Item(id, arrivals)];
      arrivals := arrivals + 1;
      ids := ids + [id];
      depth := |pending|;
      taken := None;
      if |pending| >= maxBatch {
        taken := TakeBatch();
      } else if !scheduled {
        scheduled := true;
        ticks := ticks + 1;
      }
    }

    /** The part of flush() before its await: the batch it sends, if any. */
    method TakeBatch() returns (taken: Option<seq<Item>>)
      modifies this`scheduled, this`pending, this`depth, this`inFlight, this`sent
      ensures State() == Flush(old(State()))
      ensures taken.Some? ==> sent == old(sent) + [Sent(taken.value, false)]
      ensures taken.None? ==> sent == old(sent)
    {
      scheduled := false;
      if |pending| == 0 || inFlight >= maxInFlight {
        return None;
      }
      var batch;
      if |pending| > maxBatch {
        batch := pending[..maxBatch];
        pending := pending[maxBatch..];
      } else {
        batch := pending;
        pending := [];
      }
      depth := |pending|;
      inFlight := inFlight + 1;
      sent := sent + [Sent(batch, false)];
      assert old(pending)[..|old(pending)|] == old(pending);
      taken := Some(batch);
    }

    /** The event loop runs a scheduled flush. */
    method RunCallback() returns (taken: Option<seq<Item>>)
      requires Valid() && ticks > 0
      modifies this
      ensures Valid() && State() == Tick(old(State()))
      ensures taken.Some? ==> sent == old(sent) + [Sent(taken.value, false)]
      ensures taken.None? ==> sent == old(sent)
    {
      hide Inv, Verdicts, CountDuplicates;
      TickKeeps(State());
      ticks := ticks - 1;
      taken := TakeBatch();
    }

    /** The part of flush() after its await, for the bulk write numbered `k`. */
    method Finish(ghost k: nat, batch: seq<Item>, outcome: Outcome)
      requires Valid() && k < |sent| && sent[k] == Sent(batch, false)
      modifies this
      ensures old(inFlight) > 0
      ensures Valid() && State() == Answer(old(State()), k, outcome)
    {
      hide Inv, Verdicts, CountDuplicates, VerdictAt, Normalise;
      AnswerKeeps(State(), k, outcome);
      inFlight := inFlight - 1;
      sent := sent[k := Sent(batch, true)];
      var errors := ErrorsOf(outcome);
      if outcome.Failed? && |errors| == 0 {
        RejectAll(batch, outcome);
      } else {
        batches := batches + 1;
        documents := documents + |batch|;
        SettleEach(batch, errors, outcome);
      }
      if |pending| > 0 && !scheduled && inFlight < maxInFlight {
        scheduled := true;
        ticks := ticks + 1;
      }
    }

    method RejectAll(batch: seq<Item>, ghost outcome: Outcome)
      requires WholeBatchFailed(outcome)
      modifies this`settled
      ensures settled == old(settled) + Verdicts(batch, outcome)
    {
      for i := 0 to |batch|
        invariant settled == old(settled) + Verdicts(batch, outcome)[..i]
      {
        settled := settled + [Settlement(batch[i].caller, Rejected)];
      }
    }

    method SettleEach(batch: seq<Item>, errors: seq<WriteError>, ghost outcome: Outcome)
      requires errors == ErrorsOf(outcome) && !WholeBatchFailed(outcome)
      modifies this`settled, this`duplicates
      ensures settled == old(settled) + Verdicts(batch, outcome)
      ensures duplicates == old(duplicates) + CountDuplicates(Verdicts(batch, outcome))
    {
      hide Normalise;
      ghost var all := Verdicts(batch, outcome);
      for i := 0 to |batch|
        invariant settled == old(settled) + all[..i]
        invariant duplicates + CountDuplicates(all[i..]) == old(duplicates) + CountDuplicates(all)
      {
        assert all[i..][0] == all[i] && all[i..][1..] == all[i + 1..];
        var error := ErrorAt(errors, i);
        if error.None? {
          settled := settled + [Settlement(batch[i].caller, Stored)];
        } else if error.value.code == DUPLICATE_KEY {
          duplicates := duplicates + 1;
          settled := settled + [Settlement(batch[i].caller, Duplicate)];
        } else {
          settled := settled + [Settlement(batch[i].caller, Rejected)];
        }
      }
    }
  }
}
