/** The index as a map from key to entry, under the rule the table implements for one key. */
module IndexRule {
  // An upsert replaces the entry only by a newer sequence; a removal sets the deleted flag and keeps the sequence.

  import opened Types
  import opened Sequence

  type Index = map<Key, IndexEntry>

  function Find(ix: Index, key: Key): Option<IndexEntry> {
    if key in ix && !ix[key].deleted then Some(ix[key]) else None
  }

  function Upsert(ix: Index, key: Key, e: IndexEntry): Index {
    if key in ix && !SequenceNewer(e.sequence, ix[key].sequence) then ix else ix[key := e]
  }

  function Remove(ix: Index, key: Key): Index {
    if key in ix && !ix[key].deleted then ix[key := ix[key].(deleted := true)] else ix
  }

  /** The completions of a list of puts to one key, in the order they arrive. */
  function UpsertAll(ix: Index, key: Key, es: seq<IndexEntry>): Index {
    if es == [] then ix else Upsert(UpsertAll(ix, key, es[..|es| - 1]), key, es[|es| - 1])
  }

  /** e is what the index holds for the key, or what one of the completed puts writes. */
  ghost predicate Offered(ix: Index, key: Key, es: seq<IndexEntry>, e: IndexEntry) {
    e in es || (key in ix && e == ix[key])
  }

  /** Everything offered for a key lies within one window of sequences. */
  ghost predicate InOneWindow(base: u32, ix: Index, key: Key, es: seq<IndexEntry>) {
    forall e :: Offered(ix, key, es, e) ==> InWindow(base, e.sequence)
  }

  /**
   After any list of completions within one window the key holds the newest of them and of what the index held
   for it before; the other keys are as they were.
   */
  lemma {:induction false} NewestIsKept(ix: Index, key: Key, es: seq<IndexEntry>, base: u32)
    requires InOneWindow(base, ix, key, es)
    ensures var r := UpsertAll(ix, key, es);
      && (forall k :: k in r <==> k in ix || (k == key && es != []))
      && (forall k :: k in ix && k != key ==> r[k] == ix[k])
      && (key in r ==> Offered(ix, key, es, r[key]))
      && forall e :: Offered(ix, key, es, e) ==> !SequenceNewer(e.sequence, r[key].sequence)
  {
    hide SequenceNewer, InWindow;
    if es == [] {
      forall e | Offered(ix, key, es, e)
        ensures !SequenceNewer(e.sequence, ix[key].sequence)
      {
        NewerInWindow(base, e.sequence, e.sequence);
      }
    } else {
      var front, last := es[..|es| - 1], es[|es| - 1];
      assert es == front + [last];
      assert forall e :: Offered(ix, key, front, e) ==> Offered(ix, key, es, e);
      NewestIsKept(ix, key, front, base);
      NewestOfOneMore(base, ix, key, front, last);
    }
  }

  lemma NewestOfOneMore(base: u32, ix: Index, key: Key, front: seq<IndexEntry>, last: IndexEntry)
    requires InOneWindow(base, ix, key, front + [last])
    requires var r := UpsertAll(ix, key, front);
      && (key in r ==> Offered(ix, key, front, r[key]))
      && (key !in r ==> front == [] && key !in ix)
      && forall e :: Offered(ix, key, front, e) ==> key in r && !SequenceNewer(e.sequence, r[key].sequence)
    ensures var r := Upsert(UpsertAll(ix, key, front), key, last);
      && Offered(ix, key, front + [last], r[key])
      && forall e :: Offered(ix, key, front + [last], e) ==> !SequenceNewer(e.sequence, r[key].sequence)
  {
    var es, was := front + [last], UpsertAll(ix, key, front);
    var r := Upsert(was, key, last);
    assert Offered(ix, key, es, last);
    assert key in was ==> Offered(ix, key, es, was[key]);
    forall e | Offered(ix, key, es, e)
      ensures !SequenceNewer(e.sequence, r[key].sequence)
    {
      NewerInWindow(base, e.sequence, r[key].sequence);
      NewerInWindow(base, last.sequence, r[key].sequence);
      if key in was {
        NewerInWindow(base, e.sequence, was[key].sequence);
        NewerInWindow(base, last.sequence, was[key].sequence);
      }
    }
  }

  /** A sequence number names one entry. */
  ghost predicate OneEach(ix: Index, key: Key, es: seq<IndexEntry>) {
    forall e, e' :: Offered(ix, key, es, e) && Offered(ix, key, es, e') && e.sequence == e'.sequence ==> e == e'
  }

  lemma NewestIsUnique(ix: Index, key: Key, es: seq<IndexEntry>, base: u32, x: IndexEntry, y: IndexEntry)
    requires InOneWindow(base, ix, key, es) && OneEach(ix, key, es)
    requires Offered(ix, key, es, x) && Offered(ix, key, es, y)
    requires !SequenceNewer(x.sequence, y.sequence) && !SequenceNewer(y.sequence, x.sequence)
    ensures x == y
  {
    hide SequenceNewer, InWindow;
    NewerIsStrictTotalOrder(base, x.sequence, y.sequence, y.sequence);
  }

  lemma SameOffers(ix: Index, key: Key, es: seq<IndexEntry>, es': seq<IndexEntry>, base: u32)
    requires InOneWindow(base, ix, key, es) && forall e :: e in es <==> e in es'
    ensures InOneWindow(base, ix, key, es') && (es == [] <==> es' == [])
    ensures forall e :: Offered(ix, key, es', e) <==> Offered(ix, key, es, e)
  {
    assert es != [] ==> es[0] in es';
    assert es' != [] ==> es'[0] in es;
    assert forall e :: Offered(ix, key, es', e) <==> Offered(ix, key, es, e);
  }

  /** So the order and the repetition of the completions do not matter: any two lists of the same puts leave the
      same index. */
  lemma ArrivalOrderIrrelevant(ix: Index, key: Key, es: seq<IndexEntry>, es': seq<IndexEntry>, base: u32)
    requires forall e :: e in es <==> e in es'
    requires InOneWindow(base, ix, key, es) && OneEach(ix, key, es)
    ensures UpsertAll(ix, key, es) == UpsertAll(ix, key, es')
  {
    SameOffers(ix, key, es, es', base);
    NewestIsKept(ix, key, es, base);
    NewestIsKept(ix, key, es', base);
    hide *;
    var r, r' := UpsertAll(ix, key, es), UpsertAll(ix, key, es');
    if key in r {
      NewestIsUnique(ix, key, es, base, r[key], r'[key]);
    }
    assert forall k :: k in r ==> r[k] == r'[k];
  }
}
