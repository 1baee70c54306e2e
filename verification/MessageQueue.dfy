/** The predicate-selective queue of common/utils/message_queue.py: put, get and reset. */
module MessageQueue {
  import opened Wrappers

  type Predicate<!M> = Option<M -> bool>

  predicate Accepts<M>(p: Predicate<M>, msg: M) {
    p.None? || p.value(msg)
  }

  /** A put object together with its place in the order of puts. */
  datatype Item<M> = Item(stamp: nat, msg: M)

  /** A get that waits: the number of its deferred and its predicate. */
  datatype Waiter<!M> = Waiter(id: nat, pred: Predicate<M>)

  /** A deferred fired with an object. */
  datatype Delivery<M> = Delivery(waiter: nat, item: Item<M>)

  /** The queue's two lists, and a record of what the outside has seen: how many puts and gets
      there were, which deferreds fired with what, and which objects a reset discarded. */
  datatype State<!M> = State(
    waiting: seq<Waiter<M>>, queue: seq<Item<M>>,
    puts: nat, gets: nat, delivered: seq<Delivery<M>>, lost: seq<Item<M>>, failed: seq<nat>)

  // ----- the operations -----

  function FirstAccepting<M>(waiting: seq<Waiter<M>>, msg: M): (r: Option<nat>)
    ensures r.Some? ==> r.value < |waiting| && Accepts(waiting[r.value].pred, msg)
                        && forall j :: 0 <= j < r.value ==> !Accepts(waiting[j].pred, msg)
    ensures r.None? ==> forall j :: 0 <= j < |waiting| ==> !Accepts(waiting[j].pred, msg)
  {
    if waiting == [] then None
    else if Accepts(waiting[0].pred, msg) then Some(0)
    else
      match FirstAccepting(waiting[1..], msg)
      case None => assert forall j :: 1 <= j < |waiting| ==> waiting[j] == waiting[1..][j - 1]; None
      case Some(i) => assert forall j :: 1 <= j <= i ==> waiting[j] == waiting[1..][j - 1]; Some(i + 1)
  }

  function FirstAccepted<M>(queue: seq<Item<M>>, pred: Predicate<M>): (r: Option<nat>)
    ensures r.Some? ==> r.value < |queue| && Accepts(pred, queue[r.value].msg)
                        && forall j :: 0 <= j < r.value ==> !Accepts(pred, queue[j].msg)
    ensures r.None? ==> forall j :: 0 <= j < |queue| ==> !Accepts(pred, queue[j].msg)
  {
    if queue == [] then None
    else if Accepts(pred, queue[0].msg) then Some(0)
    else
      match FirstAccepted(queue[1..], pred)
      case None => assert forall j :: 1 <= j < |queue| ==> queue[j] == queue[1..][j - 1]; None
      case Some(i) => assert forall j :: 1 <= j <= i ==> queue[j] == queue[1..][j - 1]; Some(i + 1)
  }

  function Without<T>(s: seq<T>, i: nat): seq<T>
    requires i < |s|
  {
    s[..i] + s[i + 1..]
  }

  function Put<M>(s: State<M>, msg: M): State<M> {
    var item := Item(s.puts, msg);
    match FirstAccepting(s.waiting, msg)
    case Some(i) =>
      s.(puts := s.puts + 1, waiting := Without(s.waiting, i),
         delivered := s.delivered + [Delivery(s.waiting[i].id, item)])
    case None => s.(puts := s.puts + 1, queue := s.queue + [item])
  }

  function Get<M>(s: State<M>, pred: Predicate<M>): State<M> {
    match FirstAccepted(s.queue, pred)
    case Some(i) =>
      s.(gets := s.gets + 1, queue := Without(s.queue, i), delivered := s.delivered + [Delivery(s.gets, s.queue[i])])
    case None => s.(gets := s.gets + 1, waiting := s.waiting + [Waiter(s.gets, pred)])
  }

  function WaiterIds<M>(waiting: seq<Waiter<M>>): seq<nat> {
    seq(|waiting|, i requires 0 <= i < |waiting| => waiting[i].id)
  }

  function Reset<M>(s: State<M>): State<M> {
    s.(waiting := [], queue := [], lost := s.lost + s.queue, failed := s.failed + WaiterIds(s.waiting))
  }

  datatype Op<!M> = DoPut(msg: M) | DoGet(pred: Predicate<M>) | DoReset

  function Step<M>(s: State<M>, op: Op<M>): State<M> {
    match op
    case DoPut(msg) => Put(s, msg)
    case DoGet(pred) => Get(s, pred)
    case DoReset => Reset(s)
  }

  function Init<M>(): State<M> {
    State([], [], 0, 0, [], [], [])
  }

  function Run<M>(ops: seq<Op<M>>): State<M> {
    if ops == [] then Init() else Step(Run(ops[..|ops| - 1]), ops[|ops| - 1])
  }

  // ----- what every run keeps -----

  /** No waiter would take a queued object. */
  ghost predicate NoMissedMatch<M>(s: State<M>) {
    forall i, j :: 0 <= i < |s.waiting| && 0 <= j < |s.queue| ==> !Accepts(s.waiting[i].pred, s.queue[j].msg)
  }

  ghost predicate InPutOrder<M>(s: State<M>) {
    && (forall i :: 0 <= i < |s.queue| ==> s.queue[i].stamp < s.puts)
    && (forall i, j :: 0 <= i < j < |s.queue| ==> s.queue[i].stamp < s.queue[j].stamp)
  }

  function DeliveredItems<M>(deliveries: seq<Delivery<M>>): seq<Item<M>> {
    if deliveries == [] then []
    else DeliveredItems(deliveries[..|deliveries| - 1]) + [deliveries[|deliveries| - 1].item]
  }

  /** The objects of all puts, stamped. */
  function PutItems<M>(ops: seq<Op<M>>): seq<Item<M>> {
    if ops == [] then []
    else
      var before := PutItems(ops[..|ops| - 1]);
      match ops[|ops| - 1]
      case DoPut(msg) => before + [Item(|before|, msg)]
      case _ => before
  }

  /** Every put object is in exactly one place: queued, delivered, or lost to a reset. */
  ghost predicate Conserved<M>(s: State<M>, puts: seq<Item<M>>) {
    multiset(puts) == multiset(s.queue) + multiset(DeliveredItems(s.delivered)) + multiset(s.lost)
  }

  lemma WithoutIsRemoval<T>(s: seq<T>, i: nat)
    requires i < |s|
    ensures multiset(s) == multiset(Without(s, i)) + multiset{s[i]}
  {
    assert s == s[..i] + [s[i]] + s[i + 1..];
  }

  lemma {:induction false} DeliveredAppend<M>(deliveries: seq<Delivery<M>>, d: Delivery<M>)
    ensures DeliveredItems(deliveries + [d]) == DeliveredItems(deliveries) + [d.item]
  {
    assert (deliveries + [d])[..|deliveries|] == deliveries;
  }

  lemma StepKeepsMatches<M>(s: State<M>, op: Op<M>)
    requires NoMissedMatch(s)
    ensures NoMissedMatch(Step(s, op))
  {}

  lemma WithoutPlaces<T>(s: seq<T>, i: nat)
    requires i < |s|
    ensures |Without(s, i)| == |s| - 1
    ensures forall j :: 0 <= j < |s| - 1 ==> Without(s, i)[j] == s[if j < i then j else j + 1]
  {}

  lemma StepKeepsOrder<M>(s: State<M>, op: Op<M>)
    requires InPutOrder(s)
    ensures InPutOrder(Step(s, op))
  {
    if op.DoGet? {
      match FirstAccepted(s.queue, op.pred)
      case Some(i) => WithoutPlaces(s.queue, i);
      case None =>
    }
  }

  lemma PutConserves<M>(s: State<M>, msg: M, puts: seq<Item<M>>)
    requires Conserved(s, puts) && |puts| == s.puts
    ensures Conserved(Put(s, msg), puts + [Item(|puts|, msg)])
  {
    match FirstAccepting(s.waiting, msg)
    case Some(i) => DeliveredAppend(s.delivered, Delivery(s.waiting[i].id, Item(s.puts, msg)));
    case None =>
  }

  lemma GetConserves<M>(s: State<M>, pred: Predicate<M>, puts: seq<Item<M>>)
    requires Conserved(s, puts)
    ensures Conserved(Get(s, pred), puts)
  {
    match FirstAccepted(s.queue, pred)
    case Some(i) =>
      DeliveredAppend(s.delivered, Delivery(s.gets, s.queue[i]));
      WithoutIsRemoval(s.queue, i);
    case None =>
  }

  lemma StepConserves<M>(s: State<M>, op: Op<M>, puts: seq<Item<M>>)
    requires Conserved(s, puts) && |puts| == s.puts
    ensures Conserved(Step(s, op), if op.DoPut? then puts + [Item(|puts|, op.msg)] else puts)
  {
    match op
    case DoPut(msg) => PutConserves(s, msg, puts);
    case DoGet(pred) => GetConserves(s, pred, puts);
    case DoReset =>
  }

  lemma {:induction false} RunKeepsOrder<M>(ops: seq<Op<M>>)
    ensures NoMissedMatch(Run(ops)) && InPutOrder(Run(ops))
  {
    if ops != [] {
      var n := |ops| - 1;
      RunKeepsOrder(ops[..n]);
      StepKeepsMatches(Run(ops[..n]), ops[n]);
      StepKeepsOrder(Run(ops[..n]), ops[n]);
    }
  }

  lemma {:induction false} LastOp<M>(ops: seq<Op<M>>, n: nat)
    requires |ops| == n + 1
    ensures Run(ops) == Step(Run(ops[..n]), ops[n])
    ensures var puts := PutItems(ops[..n]);
            PutItems(ops) == if ops[n].DoPut? then puts + [Item(|puts|, ops[n].msg)] else puts
    ensures Run(ops).puts == Run(ops[..n]).puts + if ops[n].DoPut? then 1 else 0
  {}

  lemma {:induction false} RunConserves<M>(ops: seq<Op<M>>)
    ensures |PutItems(ops)| == Run(ops).puts && Conserved(Run(ops), PutItems(ops))
  {
    if ops != [] {
      var n := |ops| - 1;
      RunConserves(ops[..n]);
      var s, puts := Run(ops[..n]), PutItems(ops[..n]);
      StepConserves(s, ops[n], puts);
      LastOp(ops, n);
    }
  }

  lemma {:induction false} PutItemsAreDistinct<M>(ops: seq<Op<M>>)
    ensures forall i :: 0 <= i < |PutItems(ops)| ==> PutItems(ops)[i].stamp == i
  {
    if ops != [] {
      PutItemsAreDistinct(ops[..|ops| - 1]);
    }
  }

  lemma {:induction false} StampsOccurOnce<M>(items: seq<Item<M>>, item: Item<M>)
    requires forall i :: 0 <= i < |items| ==> items[i].stamp == i
    ensures multiset(items)[item] <= 1
  {
    if items != [] {
      var n := |items| - 1;
      StampsOccurOnce(items[..n], item);
      assert items == items[..n] + [items[n]];
      if item == items[n] {
        assert item !in items[..n];
      }
    }
  }

  /** Over every run: nobody waits for an object that is queued; the queue is in put order; no put
      object is delivered twice, and one that is neither queued nor delivered was lost to a reset;
      without a reset nothing is lost. */
  lemma {:induction false} QueueCorrectness<M>(ops: seq<Op<M>>, item: Item<M>)
    ensures NoMissedMatch(Run(ops)) && InPutOrder(Run(ops))
    ensures multiset(DeliveredItems(Run(ops).delivered))[item] <= 1
    ensures item in PutItems(ops) <==>
            item in Run(ops).queue || item in DeliveredItems(Run(ops).delivered) || item in Run(ops).lost
    ensures (forall k :: 0 <= k < |ops| ==> !ops[k].DoReset?) ==> Run(ops).lost == []
  {
    RunKeepsOrder(ops);
    RunConserves(ops);
    PutItemsAreDistinct(ops);
    StampsOccurOnce(PutItems(ops), item);
    var s := Run(ops);
    assert item in PutItems(ops) <==> item in multiset(PutItems(ops));
    assert item in multiset(s.queue) + multiset(DeliveredItems(s.delivered)) + multiset(s.lost) <==>
      item in s.queue || item in DeliveredItems(s.delivered) || item in s.lost;
    NothingLostWithoutReset(ops);
  }

  lemma {:induction false} NothingLostWithoutReset<M>(ops: seq<Op<M>>)
    ensures (forall k :: 0 <= k < |ops| ==> !ops[k].DoReset?) ==> Run(ops).lost == []
  {
    if ops != [] {
      NothingLostWithoutReset(ops[..|ops| - 1]);
    }
  }

  /** The predicates of all gets, in order. */
  function GetPredicates<M>(ops: seq<Op<M>>): seq<Predicate<M>> {
    if ops == [] then []
    else
      var before := GetPredicates(ops[..|ops| - 1]);
      match ops[|ops| - 1]
      case DoGet(pred) => before + [pred]
      case _ => before
  }

  /** Waiters wait with the predicate of their own get, and deferreds fired with objects that their
      own get accepts. */
  ghost predicate ServedAsAsked<M>(s: State<M>, preds: seq<Predicate<M>>) {
    && |preds| == s.gets
    && (forall i :: 0 <= i < |s.waiting| ==> s.waiting[i].id < |preds| && s.waiting[i].pred == preds[s.waiting[i].id])
    && (forall i :: 0 <= i < |s.delivered| ==>
          s.delivered[i].waiter < |preds| && Accepts(preds[s.delivered[i].waiter], s.delivered[i].item.msg))
  }

  lemma PutServes<M>(s: State<M>, msg: M, preds: seq<Predicate<M>>)
    requires ServedAsAsked(s, preds)
    ensures ServedAsAsked(Put(s, msg), preds)
  {
    match FirstAccepting(s.waiting, msg)
    case Some(i) => WithoutPlaces(s.waiting, i);
    case None =>
  }

  lemma GetServes<M>(s: State<M>, pred: Predicate<M>, preds: seq<Predicate<M>>)
    requires ServedAsAsked(s, preds)
    ensures ServedAsAsked(Get(s, pred), preds + [pred])
  {}

  /** Over every run, a get only ever receives an object that its predicate accepts. */
  lemma {:induction false} RunServesAsAsked<M>(ops: seq<Op<M>>)
    ensures ServedAsAsked(Run(ops), GetPredicates(ops))
  {
    if ops != [] {
      var n := |ops| - 1;
      RunServesAsAsked(ops[..n]);
      match ops[n]
      case DoPut(msg) => PutServes(Run(ops[..n]), msg, GetPredicates(ops[..n]));
      case DoGet(pred) => GetServes(Run(ops[..n]), pred, GetPredicates(ops[..n]));
      case DoReset =>
    }
  }

  /** Deferreds are numbered by their get: each fires at most once, and never while it still waits. */
  ghost predicate SettledOnce<M>(waiting: seq<Waiter<M>>, delivered: seq<Delivery<M>>, gets: nat) {
    && (forall i :: 0 <= i < |waiting| ==> waiting[i].id < gets)
    && (forall i, j :: 0 <= i < j < |waiting| ==> waiting[i].id < waiting[j].id)
    && (forall i :: 0 <= i < |delivered| ==> delivered[i].waiter < gets)
    && (forall i, j :: 0 <= i < j < |delivered| ==> delivered[i].waiter != delivered[j].waiter)
    && (forall i, j :: 0 <= i < |delivered| && 0 <= j < |waiting| ==> delivered[i].waiter != waiting[j].id)
  }

  ghost predicate WaitersSettledOnce<M>(s: State<M>) {
    SettledOnce(s.waiting, s.delivered, s.gets)
  }

  lemma FireWaiter<M>(
    waiting: seq<Waiter<M>>, rest: seq<Waiter<M>>, delivered: seq<Delivery<M>>, d: Delivery<M>, gets: nat, i: nat)
    requires SettledOnce(waiting, delivered, gets) && i < |waiting| && d.waiter == waiting[i].id
    requires |rest| == |waiting| - 1 && forall j :: 0 <= j < |rest| ==> rest[j] == waiting[if j < i then j else j + 1]
    ensures SettledOnce(rest, delivered + [d], gets)
  {
    var fired := delivered + [d];
    assert forall k :: 0 <= k < |delivered| ==> fired[k] == delivered[k];
    forall k, j | 0 <= k < |fired| && 0 <= j < |rest| ensures fired[k].waiter != rest[j].id {
      var j' := if j < i then j else j + 1;
      assert rest[j] == waiting[j'] && j' != i;
    }
  }

  lemma PutSettles<M>(s: State<M>, msg: M)
    requires WaitersSettledOnce(s)
    ensures WaitersSettledOnce(Put(s, msg))
  {
    match FirstAccepting(s.waiting, msg)
    case Some(i) =>
      FireWaiter(s.waiting, Without(s.waiting, i), s.delivered,
                 Delivery(s.waiting[i].id, Item(s.puts, msg)), s.gets, i);
    case None =>
  }

  lemma GetSettles<M>(s: State<M>, pred: Predicate<M>)
    requires WaitersSettledOnce(s)
    ensures WaitersSettledOnce(Get(s, pred))
  {
    match FirstAccepted(s.queue, pred)
    case Some(i) =>
    case None =>
  }

  lemma {:induction false} EachGetFiresOnce<M>(ops: seq<Op<M>>)
    ensures WaitersSettledOnce(Run(ops))
  {
    if ops != [] {
      var n := |ops| - 1;
      EachGetFiresOnce(ops[..n]);
      match ops[n]
      case DoPut(msg) => PutSettles(Run(ops[..n]), msg);
      case DoGet(pred) => GetSettles(Run(ops[..n]), pred);
      case DoReset =>
    }
  }

  // ----- the object -----

  /** The lists are popped and appended in place; the record of the outside is ghost. */
  class Queue<M> {
    var waiting: seq<Waiter<M>>
    var queue: seq<Item<M>>
    var puts: nat
    var gets: nat
    ghost var delivered: seq<Delivery<M>>
    ghost var lost: seq<Item<M>>
    ghost var failed: seq<nat>

    ghost function Value(): State<M>
      reads this
    {
      State(waiting, queue, puts, gets, delivered, lost, failed)
    }

    constructor ()
      ensures Value() == Init()
    {
      waiting, queue, puts, gets, delivered, lost, failed := [], [], 0, 0, [], [], [];
    }

    method DoReset()
      modifies this
      ensures Value() == Reset(old(Value()))
    {
      failed := failed + WaiterIds(waiting);
      lost := lost + queue;
      waiting, queue := [], [];
    }

    /** Returns the deferred that is called back, if any. */
    method DoPut(msg: M) returns (called: Option<nat>)
      modifies this
      ensures Value() == Put(old(Value()), msg)
      ensures match FirstAccepting(old(waiting), msg)
              case None => called == None && delivered == old(delivered)
              case Some(i) => called == Some(old(waiting)[i].id) && delivered[|delivered| - 1].waiter == called.value
    {
      var item := Item(puts, msg);
      puts := puts + 1;
      for i := 0 to |waiting|
        invariant forall j :: 0 <= j < i ==> !Accepts(waiting[j].pred, msg)
        invariant Value() == old(Value()).(puts := old(puts) + 1)
      {
        if Accepts(waiting[i].pred, msg) {
          called := Some(waiting[i].id);
          delivered := delivered + [Delivery(waiting[i].id, item)];
          waiting := Without(waiting, i);
          return;
        }
      }
      queue := queue + [item];
      return None;
    }

    /** Returns the object the deferred fired with at once, or None if it waits. */
    method DoGet(pred: Predicate<M>) returns (taken: Option<M>)
      modifies this
      ensures Value() == Get(old(Value()), pred)
      ensures match FirstAccepted(old(queue), pred)
              case None => taken == None && delivered == old(delivered)
              case Some(i) => taken == Some(old(queue)[i].msg) && delivered[|delivered| - 1].item.msg == taken.value
    {
      var id := gets;
      gets := gets + 1;
      for i := 0 to |queue|
        invariant forall j :: 0 <= j < i ==> !Accepts(pred, queue[j].msg)
        invariant Value() == old(Value()).(gets := old(gets) + 1)
      {
        if Accepts(pred, queue[i].msg) {
          taken := Some(queue[i].msg);
          delivered := delivered + [Delivery(id, queue[i])];
          queue := Without(queue, i);
          return;
        }
      }
      waiting := waiting + [Waiter(id, pred)];
      return None;
    }
  }
}
