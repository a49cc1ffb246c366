/**
 The collection as its change stream reports it, and as a query sorted by `_id`
 returns it. Every back end's driver makes its own keys, from a clock reading,
 bytes of its process and a counter, so key order need not be the order of writing.
 */
module RoomLog {
  import opened Collections
  import opened RoomSpec

  /** An inserted document; `ours` says whether it belongs to the room served. */
  datatype Doc = Doc(key: nat, id: Id, ours: bool, json: string)

  /** Ids by the unique index, keys because they are `_id`. */
  ghost predicate Unique(log: seq<Doc>) {
    forall i, j :: 0 <= i < j < |log| ==> log[i].id != log[j].id && log[i].key != log[j].key
  }

  /** The room's documents in the order they were written. */
  function Ours(log: seq<Doc>): seq<Doc> {
    if log == [] then []
    else Ours(log[..|log| - 1]) + (if log[|log| - 1].ours then [log[|log| - 1]] else [])
  }

  function OurIds(log: seq<Doc>): set<Id> {
    set i | 0 <= i < |log| && log[i].ours :: log[i].id
  }

  function Reversed<T>(s: seq<T>): seq<T> {
    if s == [] then [] else Reversed(s[1..]) + [s[0]]
  }

  function Place(d: Doc, s: seq<Doc>): seq<Doc> {
    if s == [] || d.key < s[0].key then [d] + s else [s[0]] + Place(d, s[1..])
  }

  function ByKey(docs: seq<Doc>): seq<Doc> {
    if docs == [] then [] else Place(docs[|docs| - 1], ByKey(docs[..|docs| - 1]))
  }

  function LastOf<T>(s: seq<T>, max: nat): seq<T> {
    if |s| > max then s[|s| - max..] else s
  }

  /** The `max` documents of the room with the highest keys, in key order. */
  function Latest(log: seq<Doc>, max: nat): seq<Doc> {
    LastOf(ByKey(Ours(log)), max)
  }

  /** find({roomId}).sort({_id: -1}).limit(max). */
  function Newest(log: seq<Doc>, max: nat): seq<Doc> {
    Reversed(Latest(log, max))
  }

  // ----------------------------------------------------------------- Members

  lemma {:induction false} OurDocIsOurs(log: seq<Doc>, i: nat)
    requires i < |log| && log[i].ours
    ensures log[i] in Ours(log)
  {
    if i < |log| - 1 {
      assert log[..|log| - 1][i] == log[i];
      OurDocIsOurs(log[..|log| - 1], i);
    }
  }

  lemma {:induction false} OursAreLogged(log: seq<Doc>, d: Doc) returns (k: nat)
    requires d in Ours(log)
    ensures k < |log| && log[k] == d && d.ours
  {
    if log[|log| - 1].ours && d == log[|log| - 1] {
      k := |log| - 1;
    } else {
      k := OursAreLogged(log[..|log| - 1], d);
    }
  }

  /** No two documents of the room have the same key. */
  ghost predicate DistinctKeys(docs: seq<Doc>) {
    forall i, j :: 0 <= i < j < |docs| ==> docs[i].key != docs[j].key
  }

  lemma {:induction false} OursDistinct(log: seq<Doc>)
    requires Unique(log)
    ensures DistinctKeys(Ours(log))
  {
    if log != [] {
      var before, last := log[..|log| - 1], log[|log| - 1];
      OursDistinct(before);
      var ours := Ours(before);
      forall i | 0 <= i < |ours|
        ensures ours[i].key != last.key
      {
        var k := OursAreLogged(before, ours[i]);
        assert log[k] == before[k];
      }
    }
  }

  lemma {:induction false} ReversedElements<T>(s: seq<T>, x: T)
    ensures x in Reversed(s) <==> x in s
  {
    if s != [] {
      ReversedElements(s[1..], x);
      assert s == [s[0]] + s[1..];
    }
  }

  lemma {:induction false} ReversedAt<T>(s: seq<T>, k: nat)
    requires k < |s|
    ensures |Reversed(s)| == |s| && Reversed(s)[k] == s[|s| - 1 - k]
  {
    if |s| > 1 {
      ReversedAt(s[1..], if k < |s| - 1 then k else 0);
    }
  }

  lemma ReversedEach<T>(s: seq<T>)
    ensures |Reversed(s)| == |s| && forall k :: 0 <= k < |s| ==> Reversed(s)[k] == s[|s| - 1 - k]
  {
    if s != [] {
      ReversedAt(s, 0);
    }
    forall k | 0 <= k < |s|
      ensures Reversed(s)[k] == s[|s| - 1 - k]
    {
      ReversedAt(s, k);
    }
  }

  lemma ReversedTwice<T>(s: seq<T>)
    ensures Reversed(Reversed(s)) == s
  {
    ReversedEach(s);
    ReversedEach(Reversed(s));
  }

  // ------------------------------------------------------------------ Sorting

  ghost predicate Rising(docs: seq<Doc>) {
    forall i, j :: 0 <= i < j < |docs| ==> docs[i].key < docs[j].key
  }

  lemma {:induction false} PlaceHolds(d: Doc, s: seq<Doc>)
    ensures multiset(Place(d, s)) == multiset(s) + multiset{d} && |Place(d, s)| == |s| + 1
  {
    if s != [] && d.key >= s[0].key {
      PlaceHolds(d, s[1..]);
      assert s == [s[0]] + s[1..];
    }
  }

  lemma {:induction false} ByKeyHolds(docs: seq<Doc>)
    ensures multiset(ByKey(docs)) == multiset(docs) && |ByKey(docs)| == |docs|
  {
    if docs != [] {
      var before, last := docs[..|docs| - 1], docs[|docs| - 1];
      ByKeyHolds(before);
      PlaceHolds(last, ByKey(before));
      assert docs == before + [last];
    }
  }

  lemma SameMembers(docs: seq<Doc>, d: Doc)
    ensures d in ByKey(docs) <==> d in docs
  {
    ByKeyHolds(docs);
    assert d in ByKey(docs) <==> d in multiset(ByKey(docs));
    assert d in docs <==> d in multiset(docs);
  }

  lemma {:induction false} PlaceRises(d: Doc, s: seq<Doc>)
    requires Rising(s) && forall i :: 0 <= i < |s| ==> s[i].key != d.key
    ensures Rising(Place(d, s))
    ensures s != [] && s[0].key < d.key ==> Place(d, s)[0] == s[0]
  {
    if s != [] && d.key > s[0].key {
      var rest := s[1..];
      PlaceRises(d, rest);
      PlaceHolds(d, rest);
      var placed := Place(d, rest);
      forall i | 0 <= i < |placed|
        ensures s[0].key < placed[i].key
      {
        assert placed[i] in multiset(placed);
        assert placed[i] == d || placed[i] in rest;
      }
    }
  }

  lemma {:induction false} ByKeyRises(docs: seq<Doc>)
    requires DistinctKeys(docs)
    ensures Rising(ByKey(docs))
  {
    if docs != [] {
      var before, last := docs[..|docs| - 1], docs[|docs| - 1];
      ByKeyRises(before);
      forall i | 0 <= i < |ByKey(before)|
        ensures ByKey(before)[i].key != last.key
      {
        SameMembers(before, ByKey(before)[i]);
        var k :| 0 <= k < |before| && before[k] == ByKey(before)[i];
        assert docs[k] == before[k];
      }
      PlaceRises(last, ByKey(before));
    }
  }

  /**
   What a query sorted by key returns, last first: rising keys, documents of the room, and
   no more than asked for.
   */
  lemma LatestRises(log: seq<Doc>, max: nat)
    requires Unique(log)
    ensures Rising(Latest(log, max))
    ensures |Latest(log, max)| == if |Ours(log)| > max then max else |Ours(log)|
    ensures forall d :: d in Latest(log, max) ==> d in Ours(log)
  {
    hide Ours, ByKey;
    OursDistinct(log);
    ByKeyRises(Ours(log));
    ByKeyHolds(Ours(log));
    forall d | d in Latest(log, max)
      ensures d in Ours(log)
    {
      SameMembers(Ours(log), d);
    }
  }

  lemma LatestHasEveryone(log: seq<Doc>, max: nat, i: nat)
    requires |Ours(log)| <= max && i < |log| && log[i].ours
    ensures log[i] in Latest(log, max)
  {
    OurDocIsOurs(log, i);
    ByKeyHolds(Ours(log));
    SameMembers(Ours(log), log[i]);
  }

  // -------------------------------------------------------- Two kinds of order

  /** a's key is below b's. */
  ghost predicate KeyBefore(log: seq<Doc>, a: Id, b: Id) {
    exists i, j :: 0 <= i < |log| && 0 <= j < |log| && log[i].id == a && log[j].id == b && log[i].key < log[j].key
  }

  /** a was written before b. */
  ghost predicate WrittenBefore(log: seq<Doc>, a: Id, b: Id) {
    exists i, j :: 0 <= i < j < |log| && log[i].id == a && log[j].id == b
  }

  ghost predicate InKeyOrder(log: seq<Doc>, ids: seq<Id>) {
    forall i, j :: 0 <= i < j < |ids| ==> KeyBefore(log, ids[i], ids[j])
  }

  ghost predicate InWriteOrder(log: seq<Doc>, ids: seq<Id>) {
    forall i, j :: 0 <= i < j < |ids| ==> WrittenBefore(log, ids[i], ids[j])
  }

  /** The documents as the feed keeps them. */
  function Entries(docs: seq<Doc>): (r: seq<Entry>)
    ensures |r| == |docs|
  {
    seq(|docs|, i requires 0 <= i < |docs| => Entry(docs[i].id, docs[i].json))
  }

  function DocIds(docs: seq<Doc>): (r: seq<Id>)
    ensures |r| == |docs| && forall i :: 0 <= i < |docs| ==> r[i] == docs[i].id
  {
    Ids(Entries(docs))
  }

  lemma LongerLog(log: seq<Doc>, doc: Doc, ids: seq<Id>)
    requires InKeyOrder(log, ids)
    ensures InKeyOrder(log + [doc], ids)
  {
    forall i, j | 0 <= i < j < |ids|
      ensures KeyBefore(log + [doc], ids[i], ids[j])
    {
      assert KeyBefore(log, ids[i], ids[j]);
      var a, b :| 0 <= a < |log| && 0 <= b < |log| && log[a].id == ids[i] && log[b].id == ids[j]
                  && log[a].key < log[b].key;
      assert (log + [doc])[a] == log[a] && (log + [doc])[b] == log[b];
    }
  }

  lemma LatestInKeyOrder(log: seq<Doc>, max: nat)
    requires Unique(log)
    ensures InKeyOrder(log, DocIds(Latest(log, max)))
    ensures Distinct(DocIds(Latest(log, max)))
  {
    hide Latest;
    LatestRises(log, max);
    var latest := Latest(log, max);
    forall i, j | 0 <= i < j < |latest|
      ensures KeyBefore(log, latest[i].id, latest[j].id) && latest[i].id != latest[j].id
    {
      var a := OursAreLogged(log, latest[i]);
      var b := OursAreLogged(log, latest[j]);
      assert log[a].key < log[b].key;
    }
  }

  lemma NewestInKeyOrder(log: seq<Doc>, max: nat)
    requires Unique(log)
    ensures InKeyOrder(log, Reversed(DocIds(Newest(log, max))))
  {
    hide Latest, Reversed;
    LatestInKeyOrder(log, max);
    ReversedEach(Latest(log, max));
    ReversedEach(DocIds(Newest(log, max)));
    assert Reversed(DocIds(Newest(log, max))) == DocIds(Latest(log, max));
  }

  /** The keys of the newer documents, from position n on, are above those of all written before them. */
  ghost predicate RiseFrom(docs: seq<Doc>, n: nat) {
    forall i, j :: 0 <= i < j < |docs| && n <= j ==> docs[i].key < docs[j].key
  }

  lemma {:induction false} PlaceLast(d: Doc, s: seq<Doc>)
    requires forall i :: 0 <= i < |s| ==> s[i].key < d.key
    ensures Place(d, s) == s + [d]
  {
    if s != [] {
      PlaceLast(d, s[1..]);
    }
  }

  lemma HighestGoesLast(before: seq<Doc>, last: Doc)
    requires forall i :: 0 <= i < |before| ==> before[i].key < last.key
    ensures ByKey(before + [last]) == ByKey(before) + [last]
  {
    var sorted := ByKey(before);
    forall i | 0 <= i < |sorted|
      ensures sorted[i].key < last.key
    {
      SameMembers(before, sorted[i]);
    }
    PlaceLast(last, sorted);
    assert (before + [last])[..|before|] == before;
  }

  lemma {:induction false} RisingEndStays(docs: seq<Doc>, n: nat)
    requires n <= |docs| && RiseFrom(docs, n)
    ensures |ByKey(docs)| == |docs| && ByKey(docs)[n..] == docs[n..]
  {
    hide ByKey;
    ByKeyHolds(docs);
    if n < |docs| {
      var before, last := docs[..|docs| - 1], docs[|docs| - 1];
      RisingEndStays(before, n);
      HighestGoesLast(before, last);
      assert docs == before + [last];
    }
  }

  /** If the end is as it was written, its keys rise and are above all before them. */
  lemma StayingEndRises(docs: seq<Doc>, n: nat)
    requires DistinctKeys(docs) && n <= |docs|
    requires |ByKey(docs)| == |docs| && ByKey(docs)[n..] == docs[n..]
    ensures RiseFrom(docs, n)
  {
    hide ByKey;
    ByKeyRises(docs);
    var sorted := ByKey(docs);
    assert forall q :: n <= q < |docs| ==> sorted[q] == docs[q] by {
      assert forall q :: n <= q < |docs| ==> sorted[n..][q - n] == sorted[q] && docs[n..][q - n] == docs[q];
    }
    forall i, j | 0 <= i < j < |docs| && n <= j
      ensures docs[i].key < docs[j].key
    {
      SameMembers(docs, docs[i]);
      var p :| 0 <= p < |sorted| && sorted[p] == docs[i];
      assert p < j;
    }
  }

  /**
   The newest by key are the last written, in that order, exactly when their keys rise and
   are above all earlier ones.
   */
  lemma LatestIsLastWritten(log: seq<Doc>, max: nat)
    requires Unique(log)
    ensures var ours := Ours(log);
            Latest(log, max) == LastOf(ours, max) <==> RiseFrom(ours, if |ours| > max then |ours| - max else 0)
  {
    hide Ours, ByKey, RiseFrom;
    var ours := Ours(log);
    var n := if |ours| > max then |ours| - max else 0;
    OursDistinct(log);
    ByKeyHolds(ours);
    assert LastOf(ours, max) == ours[n..] && Latest(log, max) == ByKey(ours)[n..];
    if RiseFrom(ours, n) {
      RisingEndStays(ours, n);
    } else if ByKey(ours)[n..] == ours[n..] {
      StayingEndRises(ours, n);
    }
  }

  /** Of the documents with these ids, the later written have the higher keys. */
  ghost predicate RiseAmong(log: seq<Doc>, ids: seq<Id>) {
    forall i, j :: 0 <= i < j < |log| && log[i].id in ids && log[j].id in ids ==> log[i].key < log[j].key
  }

  lemma KeysGiveWriteOrder(log: seq<Doc>, ids: seq<Id>)
    requires Unique(log) && InKeyOrder(log, ids) && RiseAmong(log, ids)
    ensures InWriteOrder(log, ids)
  {
    forall p, q | 0 <= p < q < |ids|
      ensures WrittenBefore(log, ids[p], ids[q])
    {
      assert KeyBefore(log, ids[p], ids[q]);
      var i, j :| 0 <= i < |log| && 0 <= j < |log| && log[i].id == ids[p] && log[j].id == ids[q]
                  && log[i].key < log[j].key;
      assert i < j;
    }
  }

  /** A document is where it is. */
  lemma OnePlace(log: seq<Doc>, i: nat, j: nat)
    requires Unique(log) && i < |log| && j < |log|
    ensures WrittenBefore(log, log[i].id, log[j].id) ==> i < j
    ensures KeyBefore(log, log[i].id, log[j].id) ==> log[i].key < log[j].key
  {}

  lemma WriteOrderGivesKeys(log: seq<Doc>, ids: seq<Id>)
    requires Unique(log) && InKeyOrder(log, ids) && InWriteOrder(log, ids)
    ensures RiseAmong(log, ids)
  {
    hide KeyBefore, WrittenBefore;
    forall i, j | 0 <= i < j < |log| && log[i].id in ids && log[j].id in ids
      ensures log[i].key < log[j].key
    {
      var p :| 0 <= p < |ids| && ids[p] == log[i].id;
      var q :| 0 <= q < |ids| && ids[q] == log[j].id;
      OnePlace(log, i, j);
      OnePlace(log, j, i);
      assert p != q;
    }
  }

  /** Ids in key order are in the order of writing exactly when keys rise along the log among these documents. */
  lemma KeysTellTheOrder(log: seq<Doc>, ids: seq<Id>)
    requires Unique(log) && InKeyOrder(log, ids)
    ensures InWriteOrder(log, ids) <==> RiseAmong(log, ids)
  {
    hide Unique, InKeyOrder, InWriteOrder, RiseAmong;
    if RiseAmong(log, ids) {
      KeysGiveWriteOrder(log, ids);
    } else if InWriteOrder(log, ids) {
      WriteOrderGivesKeys(log, ids);
    }
  }

  /** Documents of the log are told apart by their ids. */
  lemma SameDocs(log: seq<Doc>, a: seq<Doc>, b: seq<Doc>)
    requires Unique(log) && DocIds(a) == DocIds(b)
    requires forall d :: d in a ==> d in Ours(log)
    requires forall d :: d in b ==> d in Ours(log)
    ensures a == b
  {
    hide Ours;
    assert |a| == |DocIds(a)| == |DocIds(b)| == |b|;
    forall i | 0 <= i < |a|
      ensures a[i] == b[i]
    {
      assert DocIds(a)[i] == DocIds(b)[i];
      var j := OursAreLogged(log, a[i]);
      var k := OursAreLogged(log, b[i]);
    }
  }
}
