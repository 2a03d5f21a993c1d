/** Fan-out to bounded subscriber queues: who gets a message, what a full queue
    sheds, who is reaped; and both dispatchers, with everything that can happen to
    them. */
module Fanout {
  import opened Levels

  const CAPACITY: nat := 10000

  datatype Message = Message(symbol: string, body: nat)

  /** A subscription's filter: a stream name, "all" for every stream, and the
      symbols wanted, if restricted. */
  datatype Filter = Filter(topic: string, symbols: Option<set<string>>)

  predicate Matches(f: Filter, m: Message, topic: string) {
    (f.topic == "all" || f.topic == topic) && (f.symbols.None? || m.symbol in f.symbols.value)
  }

  /** Python drops an empty symbol set, so it means every symbol. */
  function PythonFilter(topic: string, symbols: Option<set<string>>): (f: Filter)
    ensures forall m, t :: Matches(f, m, t) <==>
              (topic == "all" || topic == t) && (symbols.None? || symbols.value == {} || m.symbol in symbols.value)
  {
    Filter(topic, if symbols == Some({}) then None else symbols)
  }

  /** Rust keeps an empty symbol list, so it means no symbol, and reads any unknown
      stream name as every stream. */
  function RustFilter(topic: string, symbols: Option<seq<string>>): (f: Filter)
    ensures forall m, t :: Matches(f, m, t) <==>
              (topic !in {"bbo", "book"} || topic == t) && (symbols.None? || m.symbol in symbols.value)
  {
    Filter(if topic == "bbo" || topic == "book" then topic else "all",
           if symbols.None? then None else Some(set s | s in symbols.value))
  }

  // ---- One queue ----

  /** Which end of a full queue gives way: the oldest message in Python, the newest
      in Rust. */
  datatype Policy = ShedOldest | ShedNewest

  predicate Full(q: seq<Message>) {
    |q| >= CAPACITY
  }

  function Put(p: Policy, q: seq<Message>, m: Message): seq<Message> {
    if !Full(q) then q + [m] else if p == ShedOldest then q[1..] + [m] else q
  }

  // ---- The subscriber lists ----

  datatype Subscriber = Subscriber(id: nat, filter: Filter, queue: seq<Message>, open: bool)

  function Offered(p: Policy, s: Subscriber, m: Message, topic: string): Subscriber {
    if Matches(s.filter, m, topic) then s.(queue := Put(p, s.queue, m)) else s
  }

  function Published(p: Policy, subs: seq<Subscriber>, m: Message, topic: string): seq<Subscriber> {
    seq(|subs|, i requires 0 <= i < |subs| => Offered(p, subs[i], m, topic))
  }

  function Overflows(subs: seq<Subscriber>, m: Message, topic: string): nat {
    if subs == [] then 0
    else
      var s := subs[|subs| - 1];
      Overflows(subs[..|subs| - 1], m, topic) + if Matches(s.filter, m, topic) && Full(s.queue) then 1 else 0
  }

  function Without(subs: seq<Subscriber>, id: nat): seq<Subscriber> {
    if subs == [] then []
    else
      var rest, s := Without(subs[..|subs| - 1], id), subs[|subs| - 1];
      if s.id == id then rest else rest + [s]
  }

  function StillOpen(subs: seq<Subscriber>): seq<Subscriber> {
    if subs == [] then []
    else
      var rest, s := StillOpen(subs[..|subs| - 1]), subs[|subs| - 1];
      if s.open then rest + [s] else rest
  }

  lemma {:induction false} WithoutMembers(subs: seq<Subscriber>, id: nat)
    ensures forall s :: s in Without(subs, id) <==> s in subs && s.id != id
  {
    if subs != [] {
      WithoutMembers(subs[..|subs| - 1], id);
    }
  }

  lemma {:induction false} StillOpenMembers(subs: seq<Subscriber>)
    ensures forall s :: s in StillOpen(subs) <==> s in subs && s.open
  {
    if subs != [] {
      StillOpenMembers(subs[..|subs| - 1]);
    }
  }

  /** Every subscriber has its own id, and ids are never used again. */
  predicate IdsOk(subs: seq<Subscriber>, nextId: nat) {
    && (forall s | s in subs :: s.id < nextId)
    && forall i, j | 0 <= i < j < |subs| :: subs[i].id != subs[j].id
  }

  lemma {:induction false} WithoutKeepsIds(subs: seq<Subscriber>, id: nat, nextId: nat)
    requires IdsOk(subs, nextId)
    ensures IdsOk(Without(subs, id), nextId)
  {
    if subs != [] {
      var init := subs[..|subs| - 1];
      assert subs == init + [subs[|subs| - 1]];
      WithoutKeepsIds(init, id, nextId);
      WithoutMembers(init, id);
      LastIsNew(subs, nextId);
    }
  }

  lemma LastIsNew(subs: seq<Subscriber>, nextId: nat)
    requires IdsOk(subs, nextId) && subs != []
    ensures IdsOk(subs[..|subs| - 1], nextId)
    ensures forall s | s in subs[..|subs| - 1] :: s.id != subs[|subs| - 1].id
  {
    var init := subs[..|subs| - 1];
    forall s | s in init ensures s in subs && s.id != subs[|subs| - 1].id {
      var i :| 0 <= i < |init| && init[i] == s;
      assert subs[i] == s;
    }
  }

  lemma {:induction false} StillOpenKeepsIds(subs: seq<Subscriber>, nextId: nat)
    requires IdsOk(subs, nextId)
    ensures IdsOk(StillOpen(subs), nextId)
  {
    if subs != [] {
      var init := subs[..|subs| - 1];
      assert subs == init + [subs[|subs| - 1]];
      LastIsNew(subs, nextId);
      StillOpenKeepsIds(init, nextId);
      StillOpenMembers(init);
    }
  }

  lemma SameIdsOk(subs: seq<Subscriber>, next: seq<Subscriber>, nextId: nat)
    requires IdsOk(subs, nextId) && |next| == |subs| && forall i | 0 <= i < |subs| :: next[i].id == subs[i].id
    ensures IdsOk(next, nextId)
  {
    forall s | s in next ensures s.id < nextId {
      var i :| 0 <= i < |next| && next[i] == s;
      assert subs[i] in subs;
    }
  }

  lemma PublishedKeepsIds(p: Policy, subs: seq<Subscriber>, m: Message, topic: string, nextId: nat)
    ensures IdsOk(subs, nextId) ==> IdsOk(Published(p, subs, m, topic), nextId)
  {
    if IdsOk(subs, nextId) {
      SameIdsOk(subs, Published(p, subs, m, topic), nextId);
    }
  }

  // ---- Everything that can happen to a dispatcher ----

  /** Subscribing and unsubscribing, a receiver going away, a message to fan out,
      and a subscriber reading its queue. */
  datatype Happening =
    | Subscribing(topic: string, symbols: Option<seq<string>>)
    | Unsubscribing(id: nat)
    | Closing(id: nat)
    | Publishing(message: Message, topic: string)
    | Taking(id: nat)

  datatype Hub = Hub(subs: seq<Subscriber>, dropped: nat, nextId: nat)

  function SymbolSet(symbols: Option<seq<string>>): Option<set<string>> {
    if symbols.None? then None else Some(set s | s in symbols.value)
  }

  function FilterOf(p: Policy, topic: string, symbols: Option<seq<string>>): Filter {
    if p == ShedOldest then PythonFilter(topic, SymbolSet(symbols)) else RustFilter(topic, symbols)
  }

  /** Only the Rust dispatcher notices that a receiver is gone. */
  function ClosedIn(p: Policy, s: Subscriber, id: nat): Subscriber {
    if p == ShedNewest && s.id == id then s.(open := false) else s
  }

  function CloseIn(p: Policy, subs: seq<Subscriber>, id: nat): seq<Subscriber> {
    seq(|subs|, i requires 0 <= i < |subs| => ClosedIn(p, subs[i], id))
  }

  predicate Ready(s: Subscriber, id: nat) {
    s.id == id && s.open && s.queue != []
  }

  function Popped(s: Subscriber, id: nat): Subscriber {
    if Ready(s, id) then s.(queue := s.queue[1..]) else s
  }

  function PopIn(subs: seq<Subscriber>, id: nat): seq<Subscriber> {
    seq(|subs|, i requires 0 <= i < |subs| => Popped(subs[i], id))
  }

  /** What a subscriber reading its queue gets. */
  function NextFor(subs: seq<Subscriber>, id: nat): Option<Message> {
    if subs == [] then None
    else if Ready(subs[|subs| - 1], id) then Some(subs[|subs| - 1].queue[0])
    else NextFor(subs[..|subs| - 1], id)
  }

  function Reaped(p: Policy, subs: seq<Subscriber>): seq<Subscriber> {
    if p == ShedNewest then StillOpen(subs) else subs
  }

  function HubStep(p: Policy, h: Hub, what: Happening): Hub {
    match what
    case Subscribing(topic, symbols) =>
      Hub(h.subs + [Subscriber(h.nextId, FilterOf(p, topic, symbols), [], true)], h.dropped, h.nextId + 1)
    case Unsubscribing(id) => h.(subs := Without(h.subs, id))
    case Closing(id) => h.(subs := CloseIn(p, h.subs, id))
    case Publishing(m, topic) =>
      var served := Reaped(p, h.subs);
      Hub(Published(p, served, m, topic), h.dropped + Overflows(served, m, topic), h.nextId)
    case Taking(id) => h.(subs := PopIn(h.subs, id))
  }

  function ReplyTo(h: Hub, what: Happening): Option<Message> {
    if what.Taking? then NextFor(h.subs, what.id) else None
  }

  lemma StepKeepsIds(p: Policy, h: Hub, what: Happening)
    requires IdsOk(h.subs, h.nextId)
    ensures IdsOk(HubStep(p, h, what).subs, HubStep(p, h, what).nextId)
  {
    match what
    case Subscribing(_, _) =>
    case Unsubscribing(id) => WithoutKeepsIds(h.subs, id, h.nextId);
    case Closing(id) => SameIdsOk(h.subs, CloseIn(p, h.subs, id), h.nextId);
    case Publishing(m, topic) =>
      StillOpenKeepsIds(h.subs, h.nextId);
      SameIdsOk(Reaped(p, h.subs), Published(p, Reaped(p, h.subs), m, topic), h.nextId);
    case Taking(id) => SameIdsOk(h.subs, PopIn(h.subs, id), h.nextId);
  }

  // ---- The Python dispatcher ----

  /** A full queue loses its oldest message. */
  class PythonPublisher {
    var subs: seq<Subscriber>
    var dropped: nat
    var nextId: nat

    predicate Valid()
      reads this
    {
      IdsOk(subs, nextId)
    }

    ghost function Value(): Hub
      reads this
    {
      Hub(subs, dropped, nextId)
    }

    constructor ()
      ensures Valid() && subs == [] && dropped == 0 && nextId == 0
    {
      subs, dropped, nextId := [], 0, 0;
    }

    method Subscribe(topic: string, symbols: Option<set<string>>) returns (id: nat)
      requires Valid()
      modifies this
      ensures Valid() && dropped == old(dropped) && id == old(nextId) && nextId == old(nextId) + 1
      ensures subs == old(subs) + [Subscriber(id, PythonFilter(topic, symbols), [], true)]
      ensures forall s | s in old(subs) :: s.id != id
    {
      id := nextId;
      subs := subs + [Subscriber(id, PythonFilter(topic, symbols), [], true)];
      nextId := nextId + 1;
    }

    method Unsubscribe(id: nat)
      requires Valid()
      modifies this
      ensures Valid() && dropped == old(dropped) && nextId == old(nextId)
      ensures subs == Without(old(subs), id)
      ensures forall s :: s in subs <==> s in old(subs) && s.id != id
    {
      WithoutMembers(subs, id);
      WithoutKeepsIds(subs, id, nextId);
      subs := Without(subs, id);
    }

    method Publish(m: Message, topic: string)
      modifies this
      ensures old(Valid()) ==> Valid()
      ensures nextId == old(nextId)
      ensures subs == Published(ShedOldest, old(subs), m, topic)
      ensures dropped == old(dropped) + Overflows(old(subs), m, topic)
    {
      PublishedKeepsIds(ShedOldest, subs, m, topic, nextId);
      OfferToAll(m, topic);
    }

    method OfferToAll(m: Message, topic: string)
      modifies this`subs, this`dropped
      ensures subs == Published(ShedOldest, old(subs), m, topic)
      ensures dropped == old(dropped) + Overflows(old(subs), m, topic)
    {
      for i := 0 to |subs|
        invariant |subs| == |old(subs)|
        invariant forall k | 0 <= k < i :: subs[k] == Offered(ShedOldest, old(subs)[k], m, topic)
        invariant forall k | i <= k < |subs| :: subs[k] == old(subs)[k]
        invariant dropped == old(dropped) + Overflows(old(subs)[..i], m, topic)
      {
        var s := subs[i];
        assert old(subs)[..i + 1][..i] == old(subs)[..i];
        if !Matches(s.filter, m, topic) {
          continue;
        }
        var q := s.queue;
        if Full(q) {
          dropped := dropped + 1;
          q := q[1..];
        }
        subs := subs[i := s.(queue := q + [m])];
      }
      assert old(subs)[..|old(subs)|] == old(subs);
    }

    /** The subscriber reads its own queue. */
    method Take(id: nat) returns (m: Option<Message>)
      requires Valid()
      modifies this
      ensures Valid() && dropped == old(dropped) && nextId == old(nextId)
      ensures subs == PopIn(old(subs), id) && m == NextFor(old(subs), id)
    {
      SameIdsOk(subs, PopIn(subs, id), nextId);
      m, subs := TakeFrom(subs, id, nextId);
    }

    method Act(what: Happening) returns (m: Option<Message>)
      requires Valid()
      modifies this
      ensures Valid() && Value() == HubStep(ShedOldest, old(Value()), what)
      ensures m == ReplyTo(old(Value()), what)
    {
      m := None;
      match what {
        case Subscribing(topic, symbols) => var id := Subscribe(topic, SymbolSet(symbols));
        case Unsubscribing(id) => Unsubscribe(id);
        case Closing(id) => assert CloseIn(ShedOldest, subs, id) == subs;
        case Publishing(msg, topic) => Publish(msg, topic);
        case Taking(id) => m := Take(id);
      }
    }
  }

  /** Find the subscriber and pop its queue, if it holds anything. */
  method TakeFrom(subs: seq<Subscriber>, id: nat, ghost nextId: nat) returns (m: Option<Message>, next: seq<Subscriber>)
    requires IdsOk(subs, nextId)
    ensures next == PopIn(subs, id) && m == NextFor(subs, id)
  {
    m, next := None, subs;
    for i := 0 to |subs|
      invariant m == NextFor(subs[..i], id) == None && next == subs
      invariant forall k | 0 <= k < i :: !Ready(subs[k], id)
    {
      assert subs[..i + 1][..i] == subs[..i];
      if Ready(subs[i], id) {
        OthersAreNotReady(subs, i, id, nextId);
        m := Some(subs[i].queue[0]);
        next := subs[i := subs[i].(queue := subs[i].queue[1..])];
        return;
      }
    }
    assert subs[..|subs|] == subs;
  }

  lemma {:induction false} OthersAreNotReady(subs: seq<Subscriber>, i: nat, id: nat, nextId: nat)
    requires IdsOk(subs, nextId) && i < |subs| && Ready(subs[i], id)
    ensures forall k | 0 <= k < |subs| && k != i :: !Ready(subs[k], id)
    ensures NextFor(subs, id) == Some(subs[i].queue[0])
    decreases |subs|
  {
    forall k | 0 <= k < |subs| && k != i ensures subs[k].id != id {
      assert if k < i then subs[k].id != subs[i].id else subs[i].id != subs[k].id;
    }
    if i < |subs| - 1 {
      LastIsNew(subs, nextId);
      OthersAreNotReady(subs[..|subs| - 1], i, id, nextId);
    }
  }

  // ---- The Rust dispatcher ----

  /** Closed subscribers are reaped first, and a full queue turns the new message
      away. */
  class RustPublisher {
    var subs: seq<Subscriber>
    var dropped: nat
    var nextId: nat

    predicate Valid()
      reads this
    {
      IdsOk(subs, nextId)
    }

    ghost function Value(): Hub
      reads this
    {
      Hub(subs, dropped, nextId)
    }

    constructor ()
      ensures Valid() && subs == [] && dropped == 0 && nextId == 0
    {
      subs, dropped, nextId := [], 0, 0;
    }

    method Subscribe(topic: string, symbols: Option<seq<string>>) returns (id: nat)
      requires Valid()
      modifies this
      ensures Valid() && dropped == old(dropped) && id == old(nextId) && nextId == old(nextId) + 1
      ensures subs == old(subs) + [Subscriber(id, RustFilter(topic, symbols), [], true)]
      ensures forall s | s in old(subs) :: s.id != id
    {
      id := nextId;
      subs := subs + [Subscriber(id, RustFilter(topic, symbols), [], true)];
      nextId := nextId + 1;
    }

    method Unsubscribe(id: nat)
      requires Valid()
      modifies this
      ensures Valid() && dropped == old(dropped) && nextId == old(nextId)
      ensures subs == Without(old(subs), id)
      ensures forall s :: s in subs <==> s in old(subs) && s.id != id
    {
      WithoutMembers(subs, id);
      WithoutKeepsIds(subs, id, nextId);
      subs := Without(subs, id);
    }

    method Publish(m: Message, topic: string)
      modifies this
      ensures old(Valid()) ==> Valid()
      ensures nextId == old(nextId)
      ensures subs == Published(ShedNewest, StillOpen(old(subs)), m, topic)
      ensures dropped == old(dropped) + Overflows(StillOpen(old(subs)), m, topic)
    {
      if Valid() {
        StillOpenKeepsIds(subs, nextId);
      }
      PublishedKeepsIds(ShedNewest, StillOpen(subs), m, topic, nextId);
      subs := StillOpen(subs);
      OfferToAll(m, topic);
    }

    method OfferToAll(m: Message, topic: string)
      modifies this`subs, this`dropped
      ensures subs == Published(ShedNewest, old(subs), m, topic)
      ensures dropped == old(dropped) + Overflows(old(subs), m, topic)
    {
      for i := 0 to |subs|
        invariant |subs| == |old(subs)|
        invariant forall k | 0 <= k < i :: subs[k] == Offered(ShedNewest, old(subs)[k], m, topic)
        invariant forall k | i <= k < |subs| :: subs[k] == old(subs)[k]
        invariant dropped == old(dropped) + Overflows(old(subs)[..i], m, topic)
      {
        var s := subs[i];
        assert old(subs)[..i + 1][..i] == old(subs)[..i];
        if !Matches(s.filter, m, topic) {
          continue;
        }
        if Full(s.queue) {
          dropped := dropped + 1;
        } else {
          subs := subs[i := s.(queue := s.queue + [m])];
        }
      }
      assert old(subs)[..|old(subs)|] == old(subs);
    }

    /** The subscriber's receiver goes away. */
    method Close(id: nat)
      requires Valid()
      modifies this
      ensures Valid() && dropped == old(dropped) && nextId == old(nextId)
      ensures subs == CloseIn(ShedNewest, old(subs), id)
    {
      SameIdsOk(subs, CloseIn(ShedNewest, subs, id), nextId);
      for i := 0 to |subs|
        invariant |subs| == |old(subs)| && dropped == old(dropped) && nextId == old(nextId)
        invariant forall k | 0 <= k < i :: subs[k] == ClosedIn(ShedNewest, old(subs)[k], id)
        invariant forall k | i <= k < |subs| :: subs[k] == old(subs)[k]
      {
        if subs[i].id == id {
          subs := subs[i := subs[i].(open := false)];
        }
      }
      assert subs == CloseIn(ShedNewest, old(subs), id);
    }

    /** The subscriber reads its own queue. */
    method Take(id: nat) returns (m: Option<Message>)
      requires Valid()
      modifies this
      ensures Valid() && dropped == old(dropped) && nextId == old(nextId)
      ensures subs == PopIn(old(subs), id) && m == NextFor(old(subs), id)
    {
      SameIdsOk(subs, PopIn(subs, id), nextId);
      m, subs := TakeFrom(subs, id, nextId);
    }

    method Act(what: Happening) returns (m: Option<Message>)
      requires Valid()
      modifies this
      ensures Valid() && Value() == HubStep(ShedNewest, old(Value()), what)
      ensures m == ReplyTo(old(Value()), what)
    {
      m := None;
      match what {
        case Subscribing(topic, symbols) => var id := Subscribe(topic, symbols);
        case Unsubscribing(id) => Unsubscribe(id);
        case Closing(id) => Close(id);
        case Publishing(msg, topic) => Publish(msg, topic);
        case Taking(id) => m := Take(id);
      }
    }
  }
}
