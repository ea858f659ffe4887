/** The queue between the network thread and the engine thread, as interleaved atomic steps. */
module SpscQueue {
  // Both index loads that cross threads are acquire/release pairs, so steps are taken one at a time; the slot accesses
  // are the plain ones.

  import opened Types
  import opened Ring

  /** Where the producer is inside try_push, with what it has loaded so far. */
  datatype Producer<T> =
    | NotPushing
    | HeadLoaded(item: T, head: nat)
    | RoomSeen(item: T, head: nat, next: nat)
    | SlotWritten(item: T, head: nat, next: nat)

  /** Where the consumer is inside try_pop. */
  datatype Consumer<T> =
    | NotPopping
    | TailLoaded(tail: nat)
    | ItemSeen(tail: nat)
    | SlotRead(tail: nat, item: T)

  /** The shared indices and slots, the two threads, and the items whose push and pop have succeeded. */
  datatype State<T> = State(
    head: nat, tail: nat, buffer: seq<Option<T>>,
    producer: Producer<T>, consumer: Consumer<T>,
    pushed: seq<T>, popped: seq<T>)

  datatype Event<T> = Push(item: T) | Produce | Consume

  function Init<T>(n: nat): State<T>
    requires n > 0
  {
    State(0, 0, seq(n, _ => None), NotPushing, NotPopping, [], [])
  }

  ghost predicate InRange<T>(s: State<T>) {
    && s.head < |s.buffer| && s.tail < |s.buffer|
    && (s.producer.RoomSeen? || s.producer.SlotWritten? ==> s.producer.head < |s.buffer|)
    && (s.consumer.ItemSeen? || s.consumer.SlotRead? ==> s.consumer.tail < |s.buffer|)
  }

  /** The next atomic step of a push in progress. */
  function ProducerStep<T>(s: State<T>): State<T>
    requires InRange(s)
  {
    match s.producer
    case NotPushing => s
    case HeadLoaded(item, head) =>
      var next := Next(head, |s.buffer|);
      s.(producer := if next == s.tail then NotPushing else RoomSeen(item, head, next))
    case RoomSeen(item, head, next) =>
      s.(buffer := s.buffer[head := Some(item)], producer := SlotWritten(item, head, next))
    case SlotWritten(item, head, next) =>
      s.(head := next, producer := NotPushing, pushed := s.pushed + [item])
  }

  /** The next atomic step of a pop, starting one if none is in progress. */
  function ConsumerStep<T>(s: State<T>): State<T>
    requires InRange(s)
  {
    match s.consumer
    case NotPopping => s.(consumer := TailLoaded(s.tail))
    case TailLoaded(tail) =>
      s.(consumer := if tail == s.head then NotPopping else ItemSeen(tail))
    case ItemSeen(tail) =>
      s.(consumer := if s.buffer[tail].Some? then SlotRead(tail, s.buffer[tail].value) else s.consumer)
    case SlotRead(tail, item) =>
      s.(tail := Next(tail, |s.buffer|), consumer := NotPopping, popped := s.popped + [item])
  }

  function Apply<T>(s: State<T>, e: Event<T>): State<T>
    requires InRange(s)
  {
    match e
    case Push(item) => if s.producer.NotPushing? then s.(producer := HeadLoaded(item, s.head)) else s
    case Produce => ProducerStep(s)
    case Consume => ConsumerStep(s)
  }

  // ---------------------------------------------------------------------------------------------
  // The abstract queue
  // ---------------------------------------------------------------------------------------------

  /** The items in flight: pushed but not yet popped. */
  ghost function Queue<T>(s: State<T>): seq<T>
    requires |s.popped| <= |s.pushed|
  {
    s.pushed[|s.popped|..]
  }

  /** The slots from tail to head hold the queue; each thread's loaded index is still current, and what it
      has seen of the other's index still holds. */
  ghost predicate Inv<T>(s: State<T>) {
    var n := |s.buffer|;
    && InRange(s)
    && s.popped <= s.pushed
    && |s.pushed| - |s.popped| < n
    && s.head == Slot(s.tail, |Queue(s)|, n)
    && (forall i :: 0 <= i < |Queue(s)| ==> s.buffer[Slot(s.tail, i, n)] == Some(Queue(s)[i]))
    && (!s.producer.NotPushing? ==> s.producer.head == s.head)
    && (s.producer.RoomSeen? || s.producer.SlotWritten? ==>
         s.producer.next == Next(s.head, n) && |Queue(s)| + 1 < n)
    && (s.producer.SlotWritten? ==> s.buffer[s.head] == Some(s.producer.item))
    && (!s.consumer.NotPopping? ==> s.consumer.tail == s.tail)
    && (s.consumer.ItemSeen? || s.consumer.SlotRead? ==> Queue(s) != [])
    && (s.consumer.SlotRead? ==> s.consumer.item == Queue(s)[0])
  }

  lemma InitInv<T>(n: nat)
    requires n > 0
    ensures Inv(Init<T>(n))
  {
  }

  /** The producer never writes the slot the consumer is reading. */
  lemma NoRace<T>(s: State<T>)
    requires Inv(s) && s.producer.RoomSeen? && s.consumer.ItemSeen?
    ensures s.producer.head != s.consumer.tail
  {
  }

  /** Each producer step keeps the invariant and is a stutter on the queue, but for the store of the head,
      which appends the item; the push fails only on a full queue. */
  lemma ProducerRefines<T>(s: State<T>)
    requires Inv(s)
    ensures var s' := ProducerStep(s);
      && Inv(s')
      && Queue(s') == (if s.producer.SlotWritten? then Queue(s) + [s.producer.item] else Queue(s))
      && (s.producer.HeadLoaded? ==> (s'.producer.NotPushing? <==> |Queue(s)| == |s.buffer| - 1))
  {
    var n := |s.buffer|;
    var s' := ProducerStep(s);
    if s.producer.RoomSeen? {
      forall i | 0 <= i < |Queue(s)|
        ensures s'.buffer[Slot(s.tail, i, n)] == Some(Queue(s)[i])
      {
        assert Slot(s.tail, i, n) != s.head;
      }
    } else if s.producer.SlotWritten? {
      assert Queue(s') == Queue(s) + [s.producer.item];
    }
  }

  /** Each consumer step likewise; the store of the tail removes the first item, and the pop fails only on
      an empty queue. The slot it reads always holds an item. */
  lemma ConsumerRefines<T>(s: State<T>)
    requires Inv(s)
    ensures var s' := ConsumerStep(s);
      && Inv(s')
      && (if s.consumer.SlotRead? then Queue(s) == [s.consumer.item] + Queue(s') else Queue(s') == Queue(s))
      && (s.consumer.TailLoaded? ==> (s'.consumer.NotPopping? <==> Queue(s) == []))
      && (s.consumer.ItemSeen? ==> s'.consumer.SlotRead?)
  {
    var n := |s.buffer|;
    var s' := ConsumerStep(s);
    if s.consumer.ItemSeen? {
      assert s.buffer[Slot(s.tail, 0, n)] == Some(Queue(s)[0]);
    } else if s.consumer.SlotRead? {
      assert Queue(s') == Queue(s)[1..];
      assert s'.popped == s.pushed[..|s'.popped|];
      forall i | 0 <= i < |Queue(s')|
        ensures s'.buffer[Slot(s'.tail, i, n)] == Some(Queue(s')[i])
      {
        assert Slot(s'.tail, i, n) == Slot(s.tail, i + 1, n);
      }
    }
  }

  // ---------------------------------------------------------------------------------------------
  // Whole runs
  // ---------------------------------------------------------------------------------------------

  /** A push that is not interrupted appends its item, or leaves a full queue as it is. */
  lemma WholePush<T>(s: State<T>, item: T)
    requires Inv(s) && s.producer.NotPushing?
    ensures var s1 := Apply(s, Push(item));
      && Inv(s1) && var s2 := ProducerStep(s1);
      && Inv(s2) && var s3 := ProducerStep(s2);
      && Inv(s3) && var s4 := ProducerStep(s3);
      && Inv(s4) && s4.producer.NotPushing?
      && Queue(s4) == if |Queue(s)| + 1 < |s.buffer| then Queue(s) + [item] else Queue(s)
  {
    var s1 := Apply(s, Push(item));
    ProducerRefines(s1);
    hide Inv, ProducerStep, Queue;
    PushLoads(s, item);
    var s2 := ProducerStep(s1);
    ProducerRefines(s2);
    var s3 := ProducerStep(s2);
    ProducerRefines(s3);
    PushGoesOn(s1);
  }

  lemma PushLoads<T>(s: State<T>, item: T)
    requires Inv(s) && s.producer.NotPushing?
    ensures var s1 := Apply(s, Push(item));
      Inv(s1) && s1.producer.HeadLoaded? && s1.producer.item == item && Queue(s1) == Queue(s) && s1.buffer == s.buffer
  {
  }

  lemma PushGoesOn<T>(s: State<T>)
    requires Inv(s) && s.producer.HeadLoaded?
    ensures var s2 := ProducerStep(s);
      && Inv(s2) && (s2.producer.NotPushing? || (s2.producer.RoomSeen? && s2.producer.item == s.producer.item))
      && var s3 := ProducerStep(s2);
      && Inv(s3)
      && (s2.producer.NotPushing? ==> s3 == s2 && ProducerStep(s3) == s3)
      && (s2.producer.RoomSeen? ==> s3.producer.SlotWritten? && s3.producer.item == s.producer.item
                                    && ProducerStep(s3).producer.NotPushing?)
  {
    ProducerRefines(s);
    ProducerRefines(ProducerStep(s));
  }

  /** A pop that is not interrupted takes the first item, if there is one. */
  lemma WholePop<T>(s: State<T>)
    requires Inv(s) && s.consumer.NotPopping? && Queue(s) != []
    ensures var s1 := ConsumerStep(s);
      && Inv(s1) && var s2 := ConsumerStep(s1);
      && Inv(s2) && var s3 := ConsumerStep(s2);
      && Inv(s3) && var s4 := ConsumerStep(s3);
      && Inv(s4) && s4.consumer.NotPopping? && Queue(s) == [s3.consumer.item] + Queue(s4)
      && s4.popped == s.popped + [s3.consumer.item]
  {
    var s1 := ConsumerStep(s);
    ConsumerRefines(s);
    ConsumerRefines(s1);
    var s2 := ConsumerStep(s1);
    ConsumerRefines(s2);
    ConsumerRefines(ConsumerStep(s2));
  }

  lemma EventKeepsInv<T>(s: State<T>, e: Event<T>)
    requires Inv(s)
    ensures Inv(Apply(s, e)) && |Apply(s, e).buffer| == |s.buffer|
  {
    match e {
      case Push(item) =>
      case Produce => ProducerRefines(s);
      case Consume => ConsumerRefines(s);
    }
  }

  ghost function Run<T>(s: State<T>, es: seq<Event<T>>): State<T>
    requires Inv(s)
    decreases |es|
  {
    if es == [] then s
    else
      EventKeepsInv(s, es[0]);
      Run(Apply(s, es[0]), es[1..])
  }

  lemma {:induction false} RunKeepsInv<T>(s: State<T>, es: seq<Event<T>>)
    requires Inv(s)
    ensures Inv(Run(s, es)) && |Run(s, es).buffer| == |s.buffer|
    decreases |es|
  {
    if es != [] {
      EventKeepsInv(s, es[0]);
      RunKeepsInv(Apply(s, es[0]), es[1..]);
    }
  }

  /** Under every interleaving of the two threads' atomic steps, the items popped are a prefix of the items
      pushed, at most n - 1 items are in between, and the threads never touch the same slot. */
  lemma QueueIsFifo<T>(n: nat, es: seq<Event<T>>)
    requires n > 0
    ensures Inv(Init<T>(n))
    ensures var s := Run(Init<T>(n), es);
      && s.popped <= s.pushed
      && |s.pushed| - |s.popped| <= n - 1
      && (s.producer.RoomSeen? && s.consumer.ItemSeen? ==> s.producer.head != s.consumer.tail)
  {
    InitInv<T>(n);
    RunKeepsInv(Init<T>(n), es);
    var s := Run(Init<T>(n), es);
    if s.producer.RoomSeen? && s.consumer.ItemSeen? {
      NoRace(s);
    }
  }
}
