/** The signaling client's offline queue and listener bookkeeping: mobile/src/signalingClient.ts. */
module SignalingClient {
  import opened Wrappers

  const MAX_QUEUED_EVENTS := 32

  datatype Event = Event(name: string, payload: string)

  /** A queued emit; `serial` is its place among all emits ever queued. */
  datatype Item = Item(event: Event, serial: nat)

  /** One call of `socket.emit`: the event, and for a queued emit its serial. */
  datatype Sending = Sending(event: Event, serial: Option<nat>)

  /** Why an emit left the queue. */
  datatype Fate = Flushed | Overflowed | Invalidated

  /** The items whose fate is open, in order. */
  function Remaining(items: seq<Item>, fates: map<nat, Fate>): seq<Item> {
    if items == [] then []
    else
      var last := items[|items| - 1];
      Remaining(items[..|items| - 1], fates) + if last.serial in fates then [] else [last]
  }

  ghost predicate SerialsInOrder(items: seq<Item>) {
    forall i, j :: 0 <= i < j < |items| ==> items[i].serial < items[j].serial
  }

  /** The items a predicate does not pick, in order. */
  function KeepUnless(items: seq<Item>, p: Event -> bool): (kept: seq<Item>)
    ensures |kept| <= |items|
  {
    if items == [] then []
    else (if p(items[0].event) then [] else [items[0]]) + KeepUnless(items[1..], p)
  }

  function Picked(items: seq<Item>, p: Event -> bool): set<nat> {
    set x | x in items && p(x.event) :: x.serial
  }

  function Serials(items: seq<Item>): set<nat> {
    set x | x in items :: x.serial
  }

  /** Give every serial in `gone` a fate. */
  function Fated(fates: map<nat, Fate>, gone: set<nat>, fate: Fate): map<nat, Fate> {
    fates + map n | n in gone :: fate
  }

  /** The books of the queue: it holds, in order, exactly the emits whose fate is open; and the flushes
      are, in order and once each, exactly the emits that were flushed. */
  ghost predicate Ledger(queue: seq<Item>, queued: seq<Item>, fates: map<nat, Fate>, flushed: seq<Item>) {
    && (forall i :: 0 <= i < |queued| ==> queued[i].serial == i)
    && (forall n :: n in fates ==> n < |queued|)
    && SerialsInOrder(queue) && SerialsInOrder(flushed)
    && (forall x :: x in queue <==> x in queued && x.serial !in fates)
    && (forall x :: x in flushed <==> x in queued && x.serial in fates && fates[x.serial] == Flushed)
    && (forall i, j :: 0 <= i < |flushed| && 0 <= j < |queue| ==> flushed[i].serial < queue[j].serial)
  }

  /** The sendings that came out of the queue. */
  function FromQueue(sent: seq<Sending>): seq<Item> {
    if sent == [] then []
    else
      var last := sent[|sent| - 1];
      FromQueue(sent[..|sent| - 1]) + if last.serial.Some? then [Item(last.event, last.serial.value)] else []
  }

  function Direct(event: Event): Sending {
    Sending(event, None)
  }

  function Released(items: seq<Item>): (r: seq<Sending>)
    ensures |r| == |items| && forall i :: 0 <= i < |items| ==> r[i] == Sending(items[i].event, Some(items[i].serial))
  {
    seq(|items|, i requires 0 <= i < |items| => Sending(items[i].event, Some(items[i].serial)))
  }

  lemma DirectIsNotQueued(sent: seq<Sending>, event: Event)
    ensures FromQueue(sent + [Direct(event)]) == FromQueue(sent)
  {
    assert (sent + [Direct(event)])[..|sent|] == sent;
  }

  lemma {:induction false} ReleasedCameFromQueue(sent: seq<Sending>, items: seq<Item>)
    ensures FromQueue(sent + Released(items)) == FromQueue(sent) + items
  {
    if items == [] {
      assert sent + Released(items) == sent;
    } else {
      var init, last := items[..|items| - 1], items[|items| - 1];
      ReleasedCameFromQueue(sent, init);
      ReleasedStep(sent, items);
      FromQueueStep(sent + Released(init), last);
      assert FromQueue(sent) + init + [last] == FromQueue(sent) + items;
    }
  }

  lemma ReleasedStep(sent: seq<Sending>, items: seq<Item>)
    requires items != []
    ensures sent + Released(items)
            == sent + Released(items[..|items| - 1])
              + [Sending(items[|items| - 1].event, Some(items[|items| - 1].serial))]
  {
    var init, last := items[..|items| - 1], items[|items| - 1];
    assert Released(items) == Released(init) + [Sending(last.event, Some(last.serial))];
  }

  lemma FromQueueStep(sent: seq<Sending>, item: Item)
    ensures FromQueue(sent + [Sending(item.event, Some(item.serial))]) == FromQueue(sent) + [item]
  {
    assert (sent + [Sending(item.event, Some(item.serial))])[..|sent|] == sent;
  }

  ghost predicate OpenItems(queue: seq<Item>, queued: seq<Item>, fates: map<nat, Fate>) {
    SerialsInOrder(queue) && forall x :: x in queue <==> x in queued && x.serial !in fates
  }

  /** When the last emit is open it is the last in the queue. */
  lemma LastOpen(queue: seq<Item>, queued: seq<Item>, fates: map<nat, Fate>)
    requires SerialsInOrder(queued) && queued != [] && OpenItems(queue, queued, fates)
    requires queued[|queued| - 1].serial !in fates
    ensures queue != [] && queue[|queue| - 1] == queued[|queued| - 1]
  {
    var last := queued[|queued| - 1];
    assert last in queue;
    var newest := queue[|queue| - 1];
    assert newest in queue;
    assert newest in queued;
    var i :| 0 <= i < |queued| && queued[i] == newest;
    var j :| 0 <= j < |queue| && queue[j] == last;
  }

  lemma OpenBefore(queue: seq<Item>, queued: seq<Item>, fates: map<nat, Fate>)
    requires SerialsInOrder(queued) && queued != [] && OpenItems(queue, queued, fates)
    ensures var init, last := queued[..|queued| - 1], queued[|queued| - 1];
            if last.serial in fates then OpenItems(queue, init, fates)
            else queue != [] && queue[|queue| - 1] == last && OpenItems(queue[..|queue| - 1], init, fates)
  {
    var init, last := queued[..|queued| - 1], queued[|queued| - 1];
    assert queued == init + [last] && last !in init;
    if last.serial !in fates {
      LastOpen(queue, queued, fates);
      assert queue == queue[..|queue| - 1] + [last];
      assert last !in queue[..|queue| - 1];
    }
  }

  lemma NoMembers(queue: seq<Item>)
    ensures (forall x :: x !in queue) ==> queue == []
  {
    if queue != [] {
      assert queue[0] in queue;
    }
  }

  /** What the books mean: the queue is the order-preserving filter of everything queued. */
  lemma {:induction false} QueueIsOpenItems(queue: seq<Item>, queued: seq<Item>, fates: map<nat, Fate>)
    requires SerialsInOrder(queued) && OpenItems(queue, queued, fates)
    ensures queue == Remaining(queued, fates)
    decreases |queued|
  {
    if queued == [] {
      NoMembers(queue);
    } else {
      var init, last := queued[..|queued| - 1], queued[|queued| - 1];
      OpenBefore(queue, queued, fates);
      if last.serial in fates {
        QueueIsOpenItems(queue, init, fates);
      } else {
        QueueIsOpenItems(queue[..|queue| - 1], init, fates);
        assert queue == queue[..|queue| - 1] + [last];
      }
    }
  }

  /** Some emits leave the queue unsent. */
  lemma LeaveBooks(queue: seq<Item>, left: seq<Item>, queued: seq<Item>, fates: map<nat, Fate>, flushed: seq<Item>,
                   gone: set<nat>, fate: Fate)
    requires Ledger(queue, queued, fates, flushed) && SerialsInOrder(left) && fate != Flushed
    requires forall x :: x in left <==> x in queue && x.serial !in gone
    requires gone <= Serials(queue)
    ensures Ledger(left, queued, Fated(fates, gone, fate), flushed)
  {
    assert forall n :: n in gone ==> n < |queued| && n !in fates;
    assert forall j :: 0 <= j < |left| ==> left[j] in queue;
  }

  lemma ShiftBooks(queue: seq<Item>, queued: seq<Item>, fates: map<nat, Fate>, flushed: seq<Item>)
    requires Ledger(queue, queued, fates, flushed) && queue != []
    ensures Ledger(queue[1..], queued, Fated(fates, {queue[0].serial}, Overflowed), flushed)
  {
    assert queue == [queue[0]] + queue[1..];
    assert queue[0] in queue;
    assert forall x :: x in queue[1..] ==> x.serial > queue[0].serial;
    LeaveBooks(queue, queue[1..], queued, fates, flushed, {queue[0].serial}, Overflowed);
  }

  lemma PushBooks(queue: seq<Item>, queued: seq<Item>, fates: map<nat, Fate>, flushed: seq<Item>, item: Item)
    requires Ledger(queue, queued, fates, flushed) && item.serial == |queued|
    ensures Ledger(queue + [item], queued + [item], fates, flushed)
  {
    assert forall j :: 0 <= j < |queue| ==> queue[j] in queued && queue[j].serial < |queued|;
    assert forall j :: 0 <= j < |flushed| ==> flushed[j] in queued && flushed[j].serial < |queued|;
  }

  lemma FlushBooks(queue: seq<Item>, queued: seq<Item>, fates: map<nat, Fate>, flushed: seq<Item>)
    requires Ledger(queue, queued, fates, flushed)
    ensures Ledger([], queued, Fated(fates, Serials(queue), Flushed), flushed + queue)
  {
    forall x | x in queued
      ensures x.serial in Serials(queue) <==> x in queue
    {
      if x.serial in Serials(queue) {
        var y :| y in queue && y.serial == x.serial;
        assert y == queued[y.serial] == x;
      }
    }
  }

  /** The ledger, and that every flush is in what was sent. */
  ghost predicate Books(queue: seq<Item>, queued: seq<Item>, fates: map<nat, Fate>, flushed: seq<Item>,
                        sent: seq<Sending>) {
    Ledger(queue, queued, fates, flushed) && flushed == FromQueue(sent)
  }

  lemma ReleaseBooks(queue: seq<Item>, queued: seq<Item>, fates: map<nat, Fate>, flushed: seq<Item>, sent: seq<Sending>,
                     queue': seq<Item>, fates': map<nat, Fate>, flushed': seq<Item>, sent': seq<Sending>)
    requires Books(queue, queued, fates, flushed, sent)
    requires queue' == [] && fates' == Fated(fates, Serials(queue), Flushed)
    requires flushed' == flushed + queue && sent' == sent + Released(queue)
    ensures Books(queue', queued, fates', flushed', sent')
  {
    FlushBooks(queue, queued, fates, flushed);
    ReleasedCameFromQueue(sent, queue);
  }

  lemma DropBooks(queue: seq<Item>, queued: seq<Item>, fates: map<nat, Fate>, flushed: seq<Item>, p: Event -> bool)
    requires Ledger(queue, queued, fates, flushed)
    ensures Ledger(KeepUnless(queue, p), queued, Fated(fates, Picked(queue, p), Invalidated), flushed)
  {
    KeepUnlessContents(queue, p);
    forall x | x in queue
      ensures x.serial in Picked(queue, p) <==> p(x.event)
    {
      if x.serial in Picked(queue, p) {
        var y :| y in queue && p(y.event) && y.serial == x.serial;
        assert y == queued[y.serial] == x;
      }
    }
    LeaveBooks(queue, KeepUnless(queue, p), queued, fates, flushed, Picked(queue, p), Invalidated);
  }

  lemma {:induction false} KeepUnlessContents(items: seq<Item>, p: Event -> bool)
    ensures forall x :: x in KeepUnless(items, p) <==> x in items && !p(x.event)
    ensures SerialsInOrder(items) ==> SerialsInOrder(KeepUnless(items, p))
  {
    if items != [] {
      KeepUnlessContents(items[1..], p);
      assert items == [items[0]] + items[1..];
      if SerialsInOrder(items) {
        FirstComesFirst(items[0], items[1..], KeepUnless(items[1..], p));
      }
    }
  }

  lemma FirstComesFirst(first: Item, items: seq<Item>, kept: seq<Item>)
    requires SerialsInOrder([first] + items) && SerialsInOrder(kept) && forall x :: x in kept ==> x in items
    ensures SerialsInOrder([first] + kept)
  {
    forall j | 0 <= j < |kept|
      ensures first.serial < kept[j].serial
    {
      assert kept[j] in kept;
      var i :| 0 <= i < |items| && items[i] == kept[j];
      assert ([first] + items)[0] == first && ([first] + items)[i + 1] == kept[j];
    }
  }

  /** The socket's listeners are the others' and this client's, each of which is its own object. */
  ghost predicate Listening(listeners: multiset<(string, nat)>, others: multiset<(string, nat)>,
                            registered: seq<(string, nat)>, nextToken: nat) {
    && listeners == others + multiset(registered)
    && (forall i :: 0 <= i < |registered| ==> registered[i].1 < nextToken)
    && (forall i, j :: 0 <= i < j < |registered| ==> registered[i].1 != registered[j].1)
  }

  lemma RemoveFirst(others: multiset<(string, nat)>, left: seq<(string, nat)>)
    requires left != []
    ensures others + multiset(left) - multiset{left[0]} == others + multiset(left[1..])
  {
    assert left == [left[0]] + left[1..];
  }

  lemma RemoveAt(listeners: multiset<(string, nat)>, others: multiset<(string, nat)>, registered: seq<(string, nat)>,
                 nextToken: nat, i: int, left: seq<(string, nat)>)
    requires Listening(listeners, others, registered, nextToken) && 0 <= i < |registered|
    requires left == registered[..i] + registered[i + 1..]
    ensures Listening(listeners - multiset{registered[i]}, others, left, nextToken) && registered[i] !in left
  {
    RemovedMultiset(registered, i);
    RemovedElements(registered, left, i);
    forall j | 0 <= j < |left|
      ensures left[j] != registered[i] && left[j].1 < nextToken
    {
      assert left[j] == registered[if j < i then j else j + 1];
    }
    forall j, k | 0 <= j < k < |left|
      ensures left[j].1 != left[k].1
    {
      assert left[j] == registered[if j < i then j else j + 1] && left[k] == registered[if k < i then k else k + 1];
    }
  }

  lemma RemovedMultiset(s: seq<(string, nat)>, i: int)
    requires 0 <= i < |s|
    ensures multiset(s[..i] + s[i + 1..]) == multiset(s) - multiset{s[i]}
    ensures multiset(s) == multiset(s[..i] + s[i + 1..]) + multiset{s[i]}
  {
    assert s == s[..i] + [s[i]] + s[i + 1..];
  }

  lemma RemovedElements(s: seq<(string, nat)>, left: seq<(string, nat)>, i: int)
    requires 0 <= i < |s| && left == s[..i] + s[i + 1..]
    ensures forall j :: 0 <= j < |left| ==> left[j] == s[if j < i then j else j + 1]
  {
  }

  class Client {
    const contract: Event -> bool
    var connected: bool
    var queue: seq<Item>
    var nextSerial: nat
    /** Everything handed to `socket.emit`. */
    var sent: seq<Sending>

    // Listeners: those of this client, in registration order, among all on the socket.
    var registered: seq<(string, nat)>
    var listeners: multiset<(string, nat)>
    var nextToken: nat
    ghost var others: multiset<(string, nat)>

    /** Every emit ever queued, what became of those that left, and the flushes in order. */
    ghost var queued: seq<Item>
    ghost var fates: map<nat, Fate>
    ghost var flushed: seq<Item>

    ghost predicate QueueValid()
      reads this
    {
      && nextSerial == |queued| && |queue| <= MAX_QUEUED_EVENTS
      && Books(queue, queued, fates, flushed, sent)
      && forall x :: x in queued ==> contract(x.event)
    }

    ghost predicate ListenersValid()
      reads this
    {
      Listening(listeners, others, registered, nextToken)
    }

    ghost predicate Valid()
      reads this
    {
      QueueValid() && ListenersValid()
    }

    constructor (contract: Event -> bool, connected: bool, listeners: multiset<(string, nat)>)
      ensures Valid() && queued == [] && sent == [] && others == listeners && this.contract == contract
    {
      this.contract, this.connected, this.listeners := contract, connected, listeners;
      queue, sent, registered, nextToken, nextSerial := [], [], [], 0, 0;
      others, queued, fates, flushed := listeners, [], map[], [];
    }

    /** The queue is, in order, exactly what was queued and has not been flushed, overflowed or
        invalidated since. */
    lemma QueueIsWhatRemains()
      requires Valid()
      ensures queue == Remaining(queued, fates) && |queue| <= MAX_QUEUED_EVENTS
    {
      QueueIsOpenItems(queue, queued, fates);
    }

    /** `emit`. */
    method Emit(event: Event, ack: bool) returns (ok: bool)
      requires Valid()
      modifies `queue, `sent, `nextSerial, `queued, `fates
      ensures Valid()
      ensures ok <==> contract(event) && connected
      ensures sent == if contract(event) && (connected || ack) then old(sent) + [Direct(event)] else old(sent)
      ensures !(contract(event) && !connected && !ack) ==>
                queue == old(queue) && queued == old(queued) && fates == old(fates)
      ensures contract(event) && !connected && !ack ==>
                && queued == old(queued) + [Item(event, |old(queued)|)]
                && queue == (if |old(queue)| == 32 then old(queue)[1..] else old(queue)) + [Item(event, |old(queued)|)]
                && fates == if |old(queue)| == 32 then
                              Fated(old(fates), {old(queue)[0].serial}, Overflowed)
                            else old(fates)
    {
      if !contract(event) {
        return false;
      }
      DirectIsNotQueued(sent, event);
      if !connected {
        if ack {
          sent := sent + [Direct(event)];
          return false;
        }
        Queue(event);
        return false;
      }
      sent := sent + [Direct(event)];
      return true;
    }

    method Queue(event: Event)
      requires QueueValid() && contract(event)
      modifies `queue, `nextSerial, `queued, `fates
      ensures QueueValid() && queued == old(queued) + [Item(event, |old(queued)|)]
      ensures queue == (if |old(queue)| == MAX_QUEUED_EVENTS then old(queue)[1..] else old(queue))
                       + [Item(event, |old(queued)|)]
      ensures fates == if |old(queue)| == MAX_QUEUED_EVENTS then Fated(old(fates), {old(queue)[0].serial}, Overflowed)
                       else old(fates)
    {
      if |queue| >= MAX_QUEUED_EVENTS {
        Shift();
      }
      Push(event);
    }

    /** `queue.shift()` when the queue is full: the oldest emit overflows. */
    method Shift()
      requires QueueValid() && queue != []
      modifies `queue, `fates
      ensures QueueValid() && queue == old(queue)[1..] && fates == Fated(old(fates), {old(queue)[0].serial}, Overflowed)
    {
      ShiftBooks(queue, queued, fates, flushed);
      fates := Fated(fates, {queue[0].serial}, Overflowed);
      queue := queue[1..];
    }

    method Push(event: Event)
      requires QueueValid() && |queue| < MAX_QUEUED_EVENTS && contract(event)
      modifies `queue, `nextSerial, `queued
      ensures QueueValid() && queued == old(queued) + [Item(event, |old(queued)|)]
              && queue == old(queue) + [Item(event, |old(queued)|)]
    {
      var item := Item(event, nextSerial);
      PushBooks(queue, queued, fates, flushed, item);
      queue, nextSerial := queue + [item], nextSerial + 1;
      queued := queued + [item];
    }

    /** `flushQueue`: everything queued goes out, oldest first. */
    method FlushQueue() returns (count: nat)
      requires Valid()
      modifies `queue, `sent, `fates, `flushed
      ensures Valid()
      ensures !connected ==>
                queue == old(queue) && sent == old(sent) && flushed == old(flushed) && fates == old(fates) && count == 0
      ensures connected ==>
                && queue == [] && count == |old(queue)|
                && sent == old(sent) + Released(old(queue)) && flushed == old(flushed) + old(queue)
                && fates == Fated(old(fates), Serials(old(queue)), Flushed)
    {
      if !connected || queue == [] {
        NothingQueued();
        return 0;
      }
      count := |queue|;
      Release();
    }

    method Release()
      requires QueueValid()
      modifies `queue, `sent, `fates, `flushed
      ensures QueueValid() && queue == []
      ensures sent == old(sent) + Released(old(queue)) && flushed == old(flushed) + old(queue)
      ensures fates == Fated(old(fates), Serials(old(queue)), Flushed)
    {
      var pending := queue;
      SendAll(pending);
      queue, flushed, fates := [], flushed + pending, Fated(fates, Serials(pending), Flushed);
      ReleaseBooks(pending, queued, old(fates), old(flushed), old(sent), queue, fates, flushed, sent);
    }

    lemma NothingQueued()
      ensures queue == [] ==> Fated(fates, Serials(queue), Flushed) == fates && flushed + queue == flushed
      ensures sent + Released([]) == sent
    {
    }

    method SendAll(pending: seq<Item>)
      modifies `sent
      ensures sent == old(sent) + Released(pending)
    {
      for i := 0 to |pending|
        invariant sent == old(sent) + Released(pending[..i])
      {
        var sending := Sending(pending[i].event, Some(pending[i].serial));
        assert Released(pending[..i + 1]) == Released(pending[..i]) + [sending];
        sent := sent + [sending];
      }
      assert pending[..|pending|] == pending;
    }

    /** `dropQueuedEvents`: splicing from the back leaves the unpicked events in order. */
    method DropQueuedEvents(p: Event -> bool) returns (dropped: nat)
      requires Valid()
      modifies `queue, `fates
      ensures Valid()
      ensures queue == KeepUnless(old(queue), p) && dropped == |old(queue)| - |queue|
      ensures fates == Fated(old(fates), Picked(old(queue), p), Invalidated)
    {
      ghost var q := queue;
      dropped := Splice(p);
      DropBooks(q, queued, fates, flushed, p);
      fates := Fated(fates, Picked(q, p), Invalidated);
    }

    method Splice(p: Event -> bool) returns (dropped: nat)
      modifies `queue
      ensures queue == KeepUnless(old(queue), p) && dropped == |old(queue)| - |queue|
    {
      dropped := 0;
      var index := |queue|;
      assert queue[..index] + KeepUnless(queue[index..], p) == queue;
      while index > 0
        invariant 0 <= index <= |old(queue)|
        invariant queue == old(queue)[..index] + KeepUnless(old(queue)[index..], p)
        invariant dropped == |old(queue)| - |queue|
      {
        index := index - 1;
        assert old(queue)[index..][1..] == old(queue)[index + 1..];
        if p(queue[index].event) {
          queue := queue[..index] + queue[index + 1..];
          dropped := dropped + 1;
        }
      }
    }

    ghost function Snapshot(): State
      reads this
    {
      State(connected, queue, queued, fates, sent)
    }

    // ----- listeners -----

    /** `on`: the wrapped handler is a new object. */
    method On(event: string) returns (token: nat)
      requires ListenersValid()
      modifies `registered, `listeners, `nextToken
      ensures ListenersValid()
      ensures registered == old(registered) + [(event, token)] && listeners == old(listeners) + multiset{(event, token)}
    {
      token := nextToken;
      listeners := listeners + multiset{(event, token)};
      registered := registered + [(event, token)];
      nextToken := nextToken + 1;
    }

    /** The function `on` returned: removes just its handler, and nothing the second time. */
    method Unsubscribe(event: string, token: nat)
      requires ListenersValid()
      modifies `registered, `listeners
      ensures ListenersValid() && (event, token) !in registered
      ensures (event, token) !in old(registered) ==> registered == old(registered) && listeners == old(listeners)
      ensures (event, token) in old(registered) ==> listeners == old(listeners) - multiset{(event, token)}
    {
      var index := FindListener(event, token);
      if index == |registered| {
        return;
      }
      var left := registered[..index] + registered[index + 1..];
      RemoveAt(listeners, others, registered, nextToken, index, left);
      listeners := listeners - multiset{(event, token)};
      registered := left;
    }

    /** Where the handler is registered, or the end. */
    method FindListener(event: string, token: nat) returns (index: nat)
      ensures index <= |registered|
      ensures if index < |registered| then registered[index] == (event, token) else (event, token) !in registered
    {
      index := 0;
      while index < |registered| && registered[index] != (event, token)
        invariant 0 <= index <= |registered| && (event, token) !in registered[..index]
      {
        index := index + 1;
      }
      assert registered[..|registered|] == registered;
    }

    /** `dispose`: every listener of this client goes, and every other one stays. */
    method Dispose()
      requires ListenersValid()
      modifies `registered, `listeners
      ensures ListenersValid() && registered == [] && listeners == others
    {
      var mine := registered;
      for i := 0 to |mine|
        invariant listeners == others + multiset(mine[i..])
      {
        RemoveFirst(others, mine[i..]);
        assert mine[i..][1..] == mine[i + 1..];
        listeners := listeners - multiset{mine[i]};
      }
      registered := [];
    }
  }

  function Events(items: seq<Item>): (r: seq<Event>)
    ensures |r| == |items| && forall i :: 0 <= i < |items| ==> r[i] == items[i].event
  {
    seq(|items|, i requires 0 <= i < |items| => items[i].event)
  }

  // ----- what a script does -----

  datatype Step = Connect | Disconnect | EmitStep(event: Event, ack: bool) | FlushStep | DropStep(stale: Event -> bool)

  /** The connection, the queue, everything queued so far and what became of it, and everything sent. */
  datatype State = State(connected: bool, queue: seq<Item>, queued: seq<Item>, fates: map<nat, Fate>,
                         sent: seq<Sending>)

  function AfterEmit(contract: Event -> bool, s: State, event: Event, ack: bool): State {
    if !contract(event) then s
    else if s.connected || ack then s.(sent := s.sent + [Direct(event)])
    else
      var item := Item(event, |s.queued|);
      if |s.queue| == MAX_QUEUED_EVENTS then
        s.(queue := s.queue[1..] + [item], queued := s.queued + [item],
           fates := Fated(s.fates, {s.queue[0].serial}, Overflowed))
      else s.(queue := s.queue + [item], queued := s.queued + [item])
  }

  function Next(contract: Event -> bool, s: State, step: Step): State {
    match step
    case Connect => s.(connected := true)
    case Disconnect => s.(connected := false)
    case EmitStep(event, ack) => AfterEmit(contract, s, event, ack)
    case FlushStep =>
      if s.connected then
        s.(queue := [], fates := Fated(s.fates, Serials(s.queue), Flushed), sent := s.sent + Released(s.queue))
      else s
    case DropStep(stale) =>
      s.(queue := KeepUnless(s.queue, stale), fates := Fated(s.fates, Picked(s.queue, stale), Invalidated))
  }

  function Play(contract: Event -> bool, s: State, script: seq<Step>): State {
    if script == [] then s else Next(contract, Play(contract, s, script[..|script| - 1]), script[|script| - 1])
  }

  function ConnectedAfter(connected: bool, script: seq<Step>): bool {
    if script == [] then connected
    else
      match script[|script| - 1]
      case Connect => true
      case Disconnect => false
      case _ => ConnectedAfter(connected, script[..|script| - 1])
  }

  function OfflineNow(contract: Event -> bool, connected: bool, step: Step): seq<Event> {
    if step.EmitStep? && contract(step.event) && !step.ack && !connected then [step.event] else []
  }

  function DirectNow(contract: Event -> bool, connected: bool, step: Step): seq<Event> {
    if step.EmitStep? && contract(step.event) && (step.ack || connected) then [step.event] else []
  }

  /** The emits of a script that have to wait: valid, made offline, and with nobody waiting for an answer. */
  function OfflineEmits(contract: Event -> bool, connected: bool, script: seq<Step>): seq<Event> {
    if script == [] then []
    else
      var init, last := script[..|script| - 1], script[|script| - 1];
      OfflineEmits(contract, connected, init) + OfflineNow(contract, ConnectedAfter(connected, init), last)
  }

  /** The emits of a script that go out at once. */
  function DirectEmits(contract: Event -> bool, connected: bool, script: seq<Step>): seq<Event> {
    if script == [] then []
    else
      var init, last := script[..|script| - 1], script[|script| - 1];
      DirectEmits(contract, connected, init) + DirectNow(contract, ConnectedAfter(connected, init), last)
  }

  function DirectOf(sent: seq<Sending>): seq<Event> {
    if sent == [] then []
    else
      var last := sent[|sent| - 1];
      DirectOf(sent[..|sent| - 1]) + if last.serial.None? then [last.event] else []
  }

  lemma EventsAppend(items: seq<Item>, item: Item)
    ensures Events(items + [item]) == Events(items) + [item.event]
  {
  }

  lemma QueuedNext(contract: Event -> bool, s: State, step: Step)
    ensures Events(Next(contract, s, step).queued) == Events(s.queued) + OfflineNow(contract, s.connected, step)
  {
    if step.EmitStep? {
      EventsAppend(s.queued, Item(step.event, |s.queued|));
    }
  }

  /** What is queued over a script is its offline emits, in order. */
  lemma {:induction false} QueuedAreOfflineEmits(contract: Event -> bool, s: State, script: seq<Step>)
    ensures Play(contract, s, script).connected == ConnectedAfter(s.connected, script)
    ensures Events(Play(contract, s, script).queued) == Events(s.queued) + OfflineEmits(contract, s.connected, script)
  {
    if script == [] {
      assert Events(s.queued) + [] == Events(s.queued);
    } else {
      var init, last := script[..|script| - 1], script[|script| - 1];
      QueuedAreOfflineEmits(contract, s, init);
      QueuedNext(contract, Play(contract, s, init), last);
    }
  }

  lemma {:induction false} ReleasedAreNotDirect(sent: seq<Sending>, items: seq<Item>)
    ensures DirectOf(sent + Released(items)) == DirectOf(sent)
  {
    if items == [] {
      assert sent + Released(items) == sent;
    } else {
      var init := items[..|items| - 1];
      ReleasedAreNotDirect(sent, init);
      ReleasedStep(sent, items);
      var all := sent + Released(items);
      assert all[..|all| - 1] == sent + Released(init);
    }
  }

  lemma DirectAppend(sent: seq<Sending>, event: Event)
    ensures DirectOf(sent + [Direct(event)]) == DirectOf(sent) + [event]
  {
    assert (sent + [Direct(event)])[..|sent|] == sent;
  }

  lemma SentNext(contract: Event -> bool, s: State, step: Step)
    ensures DirectOf(Next(contract, s, step).sent) == DirectOf(s.sent) + DirectNow(contract, s.connected, step)
  {
    if step.EmitStep? {
      DirectAppend(s.sent, step.event);
    } else if step.FlushStep? {
      ReleasedAreNotDirect(s.sent, s.queue);
    }
  }

  /** What is sent over a script, apart from flushes, is its direct emits, in order. */
  lemma {:induction false} SentAreDirectEmits(contract: Event -> bool, s: State, script: seq<Step>)
    ensures DirectOf(Play(contract, s, script).sent) == DirectOf(s.sent) + DirectEmits(contract, s.connected, script)
  {
    if script == [] {
      assert DirectOf(s.sent) + [] == DirectOf(s.sent);
    } else {
      var init, last := script[..|script| - 1], script[|script| - 1];
      SentAreDirectEmits(contract, s, init);
      QueuedAreOfflineEmits(contract, s, init);
      SentNext(contract, Play(contract, s, init), last);
    }
  }

  /** Any run of connections, emits, flushes and drops does what its script says. What is sent is the direct
      emits of the script and, each once and in order, emits from the queue; what is queued is its offline
      emits; and the queue is at most 32 events long and holds, in order, exactly those not yet flushed,
      overflowed or invalidated. */
  method Run(client: Client, script: seq<Step>)
    requires client.Valid()
    modifies client
    ensures client.Valid() && |client.queue| <= 32
    ensures client.Snapshot() == Play(client.contract, old(client.Snapshot()), script)
    ensures client.queue == Remaining(client.queued, client.fates) && SerialsInOrder(FromQueue(client.sent))
    ensures Events(client.queued) == Events(old(client.queued))
            + OfflineEmits(client.contract, old(client.connected), script)
    ensures DirectOf(client.sent) == DirectOf(old(client.sent))
            + DirectEmits(client.contract, old(client.connected), script)
  {
    ghost var start := client.Snapshot();
    for i := 0 to |script|
      invariant client.Valid() && client.Snapshot() == Play(client.contract, start, script[..i])
    {
      assert script[..i + 1][..i] == script[..i];
      Perform(client, script[i]);
    }
    assert script[..|script|] == script;
    client.QueueIsWhatRemains();
    QueuedAreOfflineEmits(client.contract, start, script);
    SentAreDirectEmits(client.contract, start, script);
  }

  method Perform(client: Client, step: Step)
    requires client.Valid()
    modifies client
    ensures client.Valid() && client.Snapshot() == Next(client.contract, old(client.Snapshot()), step)
  {
    match step {
      case Connect => client.connected := true;
      case Disconnect => client.connected := false;
      case EmitStep(event, ack) => PerformEmit(client, event, ack);
      case FlushStep => var count := client.FlushQueue();
      case DropStep(stale) => var dropped := client.DropQueuedEvents(stale);
    }
  }

  method PerformEmit(client: Client, event: Event, ack: bool)
    requires client.Valid()
    modifies client
    ensures client.Valid() && client.Snapshot() == AfterEmit(client.contract, old(client.Snapshot()), event, ack)
  {
    var ok := client.Emit(event, ack);
  }
}
