/** An account in which no message goes missing uncounted, over everything that can
    happen to a dispatcher, and for both dispatchers. */
module Accounts {
  import opened Levels
  import opened Fanout

  /** A subscriber with its history: what matched, what was ever queued, what it has
      read, and how many messages were shed. */
  datatype Account = Account(
    sub: Subscriber,
    matched: seq<Message>,
    accepted: seq<Message>,
    received: seq<Message>,
    shed: nat)

  datatype Got = Got(id: nat, message: Message)

  /** All subscribers, those that have left, the dispatcher's global counter, and
      everything read so far. */
  datatype Ledger = Ledger(accounts: seq<Account>, gone: seq<Account>, dropped: nat, nextId: nat, taken: seq<Got>)

  function Subs(accounts: seq<Account>): seq<Subscriber> {
    seq(|accounts|, i requires 0 <= i < |accounts| => accounts[i].sub)
  }

  function HubOf(l: Ledger): Hub {
    Hub(Subs(l.accounts), l.dropped, l.nextId)
  }

  // ---- The ledger's moves ----

  function OfferTo(p: Policy, a: Account, m: Message, topic: string): Account {
    if !Matches(a.sub.filter, m, topic) then a
    else a.(sub := Offered(p, a.sub, m, topic), matched := a.matched + [m],
            accepted := if Full(a.sub.queue) && p == ShedNewest then a.accepted else a.accepted + [m],
            shed := if Full(a.sub.queue) then a.shed + 1 else a.shed)
  }

  function OfferAll(p: Policy, accounts: seq<Account>, m: Message, topic: string): seq<Account> {
    seq(|accounts|, i requires 0 <= i < |accounts| => OfferTo(p, accounts[i], m, topic))
  }

  function TakeBy(a: Account, id: nat): Account {
    if Ready(a.sub, id) then a.(sub := Popped(a.sub, id), received := a.received + [a.sub.queue[0]]) else a
  }

  function TakeAll(accounts: seq<Account>, id: nat): seq<Account> {
    seq(|accounts|, i requires 0 <= i < |accounts| => TakeBy(accounts[i], id))
  }

  function CloseAll(p: Policy, accounts: seq<Account>, id: nat): seq<Account> {
    seq(|accounts|, i requires 0 <= i < |accounts| => accounts[i].(sub := ClosedIn(p, accounts[i].sub, id)))
  }

  /** Who leaves the list at this point: whoever unsubscribes, and in Rust whoever is
      found closed when a message is published. */
  predicate Leaves(p: Policy, s: Subscriber, what: Happening) {
    (what.Unsubscribing? && s.id == what.id) || (what.Publishing? && p == ShedNewest && !s.open)
  }

  function Part(p: Policy, accounts: seq<Account>, what: Happening, leaving: bool): seq<Account> {
    if accounts == [] then []
    else
      var rest, a := Part(p, accounts[..|accounts| - 1], what, leaving), accounts[|accounts| - 1];
      if Leaves(p, a.sub, what) == leaving then rest + [a] else rest
  }

  function Read(l: Ledger, what: Happening): seq<Got> {
    match ReplyTo(HubOf(l), what)
    case None => []
    case Some(m) => [Got(what.id, m)]
  }

  function Happen(p: Policy, l: Ledger, what: Happening): Ledger {
    var staying, leaving := Part(p, l.accounts, what, false), Part(p, l.accounts, what, true);
    match what
    case Subscribing(topic, symbols) =>
      var s := Subscriber(l.nextId, FilterOf(p, topic, symbols), [], true);
      l.(accounts := l.accounts + [Account(s, [], [], [], 0)], nextId := l.nextId + 1)
    case Unsubscribing(_) => l.(accounts := staying, gone := l.gone + leaving)
    case Closing(id) => l.(accounts := CloseAll(p, l.accounts, id))
    case Publishing(m, topic) =>
      l.(accounts := OfferAll(p, staying, m, topic), gone := l.gone + leaving,
         dropped := l.dropped + Overflows(Subs(staying), m, topic))
    case Taking(id) => l.(accounts := TakeAll(l.accounts, id), taken := l.taken + Read(l, what))
  }

  function LedgerAfter(p: Policy, hs: seq<Happening>): Ledger {
    if hs == [] then Ledger([], [], 0, 0, [])
    else Happen(p, LedgerAfter(p, hs[..|hs| - 1]), hs[|hs| - 1])
  }

  // ---- The ledger follows the dispatcher ----

  lemma {:induction false} StayingAreServed(p: Policy, accounts: seq<Account>, what: Happening)
    ensures what.Unsubscribing? ==> Subs(Part(p, accounts, what, false)) == Without(Subs(accounts), what.id)
    ensures what.Publishing? ==> Subs(Part(p, accounts, what, false)) == Reaped(p, Subs(accounts))
  {
    if accounts != [] {
      var n := |accounts| - 1;
      StayingAreServed(p, accounts[..n], what);
      assert Subs(accounts)[..n] == Subs(accounts[..n]) && Subs(accounts)[n] == accounts[n].sub;
      var rest := Part(p, accounts[..n], what, false);
      assert Subs(rest + [accounts[n]]) == Subs(rest) + [accounts[n].sub];
    }
  }

  /** The ledger's queues move exactly as the dispatcher's do. */
  lemma PublishingMovesQueues(p: Policy, accounts: seq<Account>, m: Message, topic: string)
    ensures Subs(OfferAll(p, accounts, m, topic)) == Published(p, Subs(accounts), m, topic)
  {
  }

  lemma LedgerFollows(p: Policy, l: Ledger, what: Happening)
    ensures HubOf(Happen(p, l, what)) == HubStep(p, HubOf(l), what)
  {
    StayingAreServed(p, l.accounts, what);
    match what
    case Subscribing(_, _) =>
      assert Subs(Happen(p, l, what).accounts) == HubStep(p, HubOf(l), what).subs;
    case Publishing(m, topic) => PublishingMovesQueues(p, Part(p, l.accounts, what, false), m, topic);
    case Unsubscribing(_) =>
    case Closing(id) => assert Subs(CloseAll(p, l.accounts, id)) == CloseIn(p, Subs(l.accounts), id);
    case Taking(id) => assert Subs(TakeAll(l.accounts, id)) == PopIn(Subs(l.accounts), id);
  }

  // ---- Balance ----

  function TotalShed(accounts: seq<Account>): nat {
    if accounts == [] then 0
    else TotalShed(accounts[..|accounts| - 1]) + accounts[|accounts| - 1].shed
  }

  /** One sequence obtained from another by leaving messages out. */
  predicate Subsequence(a: seq<Message>, b: seq<Message>) {
    if a == [] then true
    else if b == [] then false
    else
      (a[|a| - 1] == b[|b| - 1] && Subsequence(a[..|a| - 1], b[..|b| - 1])) || Subsequence(a, b[..|b| - 1])
  }

  lemma SubsequenceGrows(a: seq<Message>, b: seq<Message>, m: Message)
    requires Subsequence(a, b)
    ensures Subsequence(a, b + [m]) && Subsequence(a + [m], b + [m])
  {
    assert (b + [m])[..|b|] == b && (a + [m])[..|a|] == a;
  }

  /** The balance of one account; under drop-oldest the queue is the newest run of
      matching messages, under drop-newest nothing once queued is lost. */
  predicate Balanced(p: Policy, a: Account) {
    && |a.matched| == |a.received| + |a.sub.queue| + a.shed
    && |a.sub.queue| <= CAPACITY
    && match p {
         case ShedOldest =>
           var older := |a.matched| - |a.sub.queue|;
           a.sub.queue == a.matched[older..] && Subsequence(a.received, a.matched[..older])
         case ShedNewest =>
           a.received + a.sub.queue == a.accepted && Subsequence(a.accepted, a.matched)
       }
  }

  lemma SuffixGrows(s: seq<Message>, k: nat, m: Message)
    requires k <= |s|
    ensures s[k..] + [m] == (s + [m])[k..] && (s + [m])[..k] == s[..k]
    ensures k < |s| ==> s[k..][1..] == s[k + 1..] && s[..k + 1] == s[..k] + [s[k]]
  {
  }

  lemma RoomKeepsSuffix(matched: seq<Message>, queue: seq<Message>, older: nat, m: Message)
    requires older <= |matched| && queue == matched[older..]
    ensures queue + [m] == (matched + [m])[older..] && (matched + [m])[..older] == matched[..older]
  {
    SuffixGrows(matched, older, m);
  }

  lemma SheddingKeepsSuffix(matched: seq<Message>, queue: seq<Message>, received: seq<Message>, older: nat, m: Message)
    requires older < |matched| && queue == matched[older..] && Subsequence(received, matched[..older])
    ensures queue[1..] + [m] == (matched + [m])[older + 1..]
    ensures Subsequence(received, (matched + [m])[..older + 1])
  {
    SuffixGrows(matched, older, m);
    SuffixGrows(matched, older + 1, m);
    SubsequenceGrows(received, matched[..older], matched[older]);
  }

  lemma ShedOldestKeepsBalance(a: Account, m: Message)
    requires Balanced(ShedOldest, a)
    ensures var q, matched := Fanout.Put(ShedOldest, a.sub.queue, m), a.matched + [m];
            var older := |matched| - |q|;
            q == matched[older..] && Subsequence(a.received, matched[..older])
  {
    var older := |a.matched| - |a.sub.queue|;
    if Full(a.sub.queue) {
      SheddingKeepsSuffix(a.matched, a.sub.queue, a.received, older, m);
    } else {
      RoomKeepsSuffix(a.matched, a.sub.queue, older, m);
    }
  }

  lemma ShedNewestKeepsBalance(a: Account, m: Message)
    requires Balanced(ShedNewest, a)
    ensures Subsequence(a.accepted, a.matched + [m]) && Subsequence(a.accepted + [m], a.matched + [m])
    ensures !Full(a.sub.queue) ==> a.received + Fanout.Put(ShedNewest, a.sub.queue, m) == a.accepted + [m]
  {
    SubsequenceGrows(a.accepted, a.matched, m);
    assert a.received + (a.sub.queue + [m]) == a.received + a.sub.queue + [m];
  }

  lemma OfferKeepsNewestRun(a: Account, m: Message, topic: string)
    requires Balanced(ShedOldest, a) && Matches(a.sub.filter, m, topic)
    ensures Balanced(ShedOldest, OfferTo(ShedOldest, a, m, topic))
  {
    ShedOldestKeepsBalance(a, m);
  }

  lemma OfferKeepsAccepted(a: Account, m: Message, topic: string)
    requires Balanced(ShedNewest, a) && Matches(a.sub.filter, m, topic)
    ensures Balanced(ShedNewest, OfferTo(ShedNewest, a, m, topic))
  {
    ShedNewestKeepsBalance(a, m);
  }

  lemma OfferKeepsBalance(p: Policy, a: Account, m: Message, topic: string)
    requires Balanced(p, a)
    ensures Balanced(p, OfferTo(p, a, m, topic))
  {
    if Matches(a.sub.filter, m, topic) {
      match p {
        case ShedOldest => OfferKeepsNewestRun(a, m, topic);
        case ShedNewest => OfferKeepsAccepted(a, m, topic);
      }
    }
  }

  lemma TakeFromOldest(a: Account)
    requires Balanced(ShedOldest, a) && a.sub.queue != []
    ensures var older := |a.matched| - |a.sub.queue|;
            a.sub.queue[1..] == a.matched[older + 1..] &&
            Subsequence(a.received + [a.sub.queue[0]], a.matched[..older + 1])
  {
    var older := |a.matched| - |a.sub.queue|;
    assert a.matched[..older + 1] == a.matched[..older] + [a.matched[older]];
    SubsequenceGrows(a.received, a.matched[..older], a.matched[older]);
  }

  lemma TakeKeepsNewestRun(a: Account, id: nat)
    requires Balanced(ShedOldest, a) && Ready(a.sub, id)
    ensures Balanced(ShedOldest, TakeBy(a, id))
  {
    TakeFromOldest(a);
  }

  lemma TakeKeepsAccepted(a: Account, id: nat)
    requires Balanced(ShedNewest, a) && Ready(a.sub, id)
    ensures Balanced(ShedNewest, TakeBy(a, id))
  {
    assert a.received + [a.sub.queue[0]] + a.sub.queue[1..] == a.received + a.sub.queue;
  }

  lemma TakeKeepsBalance(p: Policy, a: Account, id: nat)
    requires Balanced(p, a)
    ensures Balanced(p, TakeBy(a, id))
  {
    if Ready(a.sub, id) {
      match p {
        case ShedOldest => TakeKeepsNewestRun(a, id);
        case ShedNewest => TakeKeepsAccepted(a, id);
      }
    }
  }

  lemma {:induction false} ShedBySum(p: Policy, accounts: seq<Account>, m: Message, topic: string)
    ensures TotalShed(OfferAll(p, accounts, m, topic))
         == TotalShed(accounts) + Overflows(Subs(accounts), m, topic)
  {
    if accounts != [] {
      var n := |accounts| - 1;
      var init := accounts[..n];
      ShedBySum(p, init, m, topic);
      assert OfferAll(p, accounts, m, topic)[..n] == OfferAll(p, init, m, topic);
      assert Subs(accounts)[..n] == Subs(init);
    }
  }

  lemma {:induction false} SameSheds(a: seq<Account>, b: seq<Account>)
    requires |a| == |b| && forall i | 0 <= i < |a| :: a[i].shed == b[i].shed
    ensures TotalShed(a) == TotalShed(b)
  {
    if a != [] {
      SameSheds(a[..|a| - 1], b[..|b| - 1]);
    }
  }

  lemma {:induction false} ShedAppend(a: seq<Account>, b: seq<Account>)
    ensures TotalShed(a + b) == TotalShed(a) + TotalShed(b)
  {
    if b == [] {
      assert a + b == a;
    } else {
      ShedAppend(a, b[..|b| - 1]);
      assert (a + b)[..|a + b| - 1] == a + b[..|b| - 1];
    }
  }

  lemma {:induction false} PartMembers(p: Policy, accounts: seq<Account>, what: Happening, leaving: bool)
    ensures forall a :: a in Part(p, accounts, what, leaving) <==> a in accounts && Leaves(p, a.sub, what) == leaving
  {
    if accounts != [] {
      PartMembers(p, accounts[..|accounts| - 1], what, leaving);
      assert accounts == accounts[..|accounts| - 1] + [accounts[|accounts| - 1]];
    }
  }

  lemma {:induction false} PartsShedTheWhole(p: Policy, accounts: seq<Account>, what: Happening)
    ensures TotalShed(Part(p, accounts, what, false)) + TotalShed(Part(p, accounts, what, true)) == TotalShed(accounts)
  {
    if accounts != [] {
      var init, a := accounts[..|accounts| - 1], accounts[|accounts| - 1];
      var side := Leaves(p, a.sub, what);
      PartsShedTheWhole(p, init, what);
      ShedOneMore(Part(p, init, what, side), a);
      assert Part(p, accounts, what, side) == Part(p, init, what, side) + [a];
      assert Part(p, accounts, what, !side) == Part(p, init, what, !side);
    }
  }

  lemma ShedOneMore(accounts: seq<Account>, a: Account)
    ensures TotalShed(accounts + [a]) == TotalShed(accounts) + a.shed
  {
    assert (accounts + [a])[..|accounts|] == accounts;
  }

  predicate AllBalanced(p: Policy, accounts: seq<Account>) {
    forall a | a in accounts :: Balanced(p, a)
  }

  predicate Reconciled(p: Policy, l: Ledger) {
    && AllBalanced(p, l.accounts) && AllBalanced(p, l.gone)
    && l.dropped == TotalShed(l.accounts) + TotalShed(l.gone)
  }

  lemma OfferAllKeepsBalance(p: Policy, accounts: seq<Account>, m: Message, topic: string)
    requires AllBalanced(p, accounts)
    ensures AllBalanced(p, OfferAll(p, accounts, m, topic))
  {
    var next := OfferAll(p, accounts, m, topic);
    forall i | 0 <= i < |next| ensures Balanced(p, next[i]) {
      assert accounts[i] in accounts;
      OfferKeepsBalance(p, accounts[i], m, topic);
    }
  }

  lemma TakeAllKeepsBalance(p: Policy, accounts: seq<Account>, id: nat)
    requires AllBalanced(p, accounts)
    ensures AllBalanced(p, TakeAll(accounts, id)) && TotalShed(TakeAll(accounts, id)) == TotalShed(accounts)
  {
    var next := TakeAll(accounts, id);
    forall i | 0 <= i < |next| ensures Balanced(p, next[i]) {
      assert accounts[i] in accounts;
      TakeKeepsBalance(p, accounts[i], id);
    }
    SameSheds(next, accounts);
  }

  lemma CloseAllKeepsBalance(p: Policy, accounts: seq<Account>, id: nat)
    requires AllBalanced(p, accounts)
    ensures AllBalanced(p, CloseAll(p, accounts, id)) && TotalShed(CloseAll(p, accounts, id)) == TotalShed(accounts)
  {
    var next := CloseAll(p, accounts, id);
    forall i | 0 <= i < |next| ensures Balanced(p, next[i]) {
      assert accounts[i] in accounts && next[i].sub.queue == accounts[i].sub.queue;
    }
    SameSheds(next, accounts);
  }

  lemma PublishingKeepsReconciled(p: Policy, l: Ledger, m: Message, topic: string)
    requires Reconciled(p, l)
    ensures Reconciled(p, Happen(p, l, Publishing(m, topic)))
  {
    var what := Publishing(m, topic);
    var staying, leaving := Part(p, l.accounts, what, false), Part(p, l.accounts, what, true);
    LeavingKeepsBalance(p, l, what);
    OfferAllKeepsBalance(p, staying, m, topic);
    ShedBySum(p, staying, m, topic);
  }

  lemma LeavingKeepsBalance(p: Policy, l: Ledger, what: Happening)
    requires Reconciled(p, l)
    ensures var staying, leaving := Part(p, l.accounts, what, false), Part(p, l.accounts, what, true);
            && AllBalanced(p, staying) && AllBalanced(p, l.gone + leaving)
            && l.dropped == TotalShed(staying) + TotalShed(l.gone + leaving)
  {
    PartMembers(p, l.accounts, what, false);
    PartMembers(p, l.accounts, what, true);
    PartsShedTheWhole(p, l.accounts, what);
    ShedAppend(l.gone, Part(p, l.accounts, what, true));
  }

  lemma NewIsBalanced(p: Policy, s: Subscriber)
    requires s.queue == []
    ensures Balanced(p, Account(s, [], [], [], 0))
  {
  }

  lemma BalancedAppend(p: Policy, accounts: seq<Account>, a: Account)
    requires AllBalanced(p, accounts) && Balanced(p, a)
    ensures AllBalanced(p, accounts + [a])
  {
  }

  lemma JoiningKeepsReconciled(p: Policy, l: Ledger, what: Happening)
    requires Reconciled(p, l) && what.Subscribing?
    ensures Reconciled(p, Happen(p, l, what))
  {
    var s := Subscriber(l.nextId, FilterOf(p, what.topic, what.symbols), [], true);
    var a := Account(s, [], [], [], 0);
    NewIsBalanced(p, s);
    BalancedAppend(p, l.accounts, a);
    ShedOneMore(l.accounts, a);
    assert Happen(p, l, what) == l.(accounts := l.accounts + [a], nextId := l.nextId + 1);
  }

  lemma KeepsReconciled(p: Policy, l: Ledger, what: Happening)
    requires Reconciled(p, l)
    ensures Reconciled(p, Happen(p, l, what))
  {
    if what.Subscribing? {
      JoiningKeepsReconciled(p, l, what);
    } else if what.Unsubscribing? {
      LeavingKeepsBalance(p, l, what);
    } else if what.Closing? {
      CloseAllKeepsBalance(p, l.accounts, what.id);
    } else if what.Publishing? {
      PublishingKeepsReconciled(p, l, what.message, what.topic);
    } else {
      TakeAllKeepsBalance(p, l.accounts, what.id);
    }
  }

  /** A subscriber loses a message exactly when ten thousand that matched, and were not
      shed, are still unread; in numbers of messages only. */
  lemma ShedsAtTenThousand(p: Policy, a: Account, m: Message, topic: string)
    requires Balanced(p, a) && Matches(a.sub.filter, m, topic)
    ensures OfferTo(p, a, m, topic).shed - a.shed == if |a.matched| - |a.received| - a.shed == 10000 then 1 else 0
  {
  }

  predicate NoEarlyShed(accounts: seq<Account>) {
    forall a | a in accounts :: a.shed > 0 ==> |a.matched| > 10000
  }

  lemma OfferShedsLate(p: Policy, accounts: seq<Account>, m: Message, topic: string)
    requires AllBalanced(p, accounts) && NoEarlyShed(accounts)
    ensures NoEarlyShed(OfferAll(p, accounts, m, topic))
  {
    var next := OfferAll(p, accounts, m, topic);
    forall i | 0 <= i < |next| ensures next[i].shed > 0 ==> |next[i].matched| > 10000 {
      assert accounts[i] in accounts;
      if Matches(accounts[i].sub.filter, m, topic) {
        ShedsAtTenThousand(p, accounts[i], m, topic);
      }
    }
  }

  lemma SameShedsLate(accounts: seq<Account>, next: seq<Account>)
    requires NoEarlyShed(accounts) && |next| == |accounts|
    requires forall i | 0 <= i < |next| :: next[i].shed == accounts[i].shed && next[i].matched == accounts[i].matched
    ensures NoEarlyShed(next)
  {
    forall i | 0 <= i < |next| ensures next[i].shed > 0 ==> |next[i].matched| > 10000 {
      assert accounts[i] in accounts;
    }
  }

  lemma KeepsShedLate(p: Policy, l: Ledger, what: Happening)
    requires Reconciled(p, l) && NoEarlyShed(l.accounts) && NoEarlyShed(l.gone)
    ensures NoEarlyShed(Happen(p, l, what).accounts) && NoEarlyShed(Happen(p, l, what).gone)
  {
    PartMembers(p, l.accounts, what, false);
    PartMembers(p, l.accounts, what, true);
    if what.Publishing? {
      OfferShedsLate(p, Part(p, l.accounts, what, false), what.message, what.topic);
    } else if what.Closing? || what.Taking? {
      SameShedsLate(l.accounts, Happen(p, l, what).accounts);
    }
  }

  /** Over every script: nothing is shed for a subscriber that no more than ten
      thousand messages have matched. */
  lemma {:induction false} NothingShedEarly(p: Policy, hs: seq<Happening>)
    ensures NoEarlyShed(LedgerAfter(p, hs).accounts) && NoEarlyShed(LedgerAfter(p, hs).gone)
  {
    if hs != [] {
      NothingShedEarly(p, hs[..|hs| - 1]);
      AlwaysReconciled(p, hs[..|hs| - 1]);
      KeepsShedLate(p, LedgerAfter(p, hs[..|hs| - 1]), hs[|hs| - 1]);
    }
  }

  // ---- What was read is what the accounts say ----

  function ReadBy(taken: seq<Got>, id: nat): seq<Message> {
    if taken == [] then []
    else
      var rest, got := ReadBy(taken[..|taken| - 1], id), taken[|taken| - 1];
      if got.id == id then rest + [got.message] else rest
  }

  lemma ReadByAppend(taken: seq<Got>, got: Got, id: nat)
    ensures ReadBy(taken + [got], id) == ReadBy(taken, id) + if got.id == id then [got.message] else []
  {
    assert (taken + [got])[..|taken|] == taken;
  }

  lemma {:induction false} NobodyElseRead(taken: seq<Got>, id: nat)
    requires forall got | got in taken :: got.id != id
    ensures ReadBy(taken, id) == []
  {
    if taken != [] {
      assert taken[|taken| - 1] in taken;
      NobodyElseRead(taken[..|taken| - 1], id);
    }
  }

  predicate Apart(accounts: seq<Account>, gone: seq<Account>) {
    forall a, g | a in accounts && g in gone :: a.sub.id != g.sub.id
  }

  predicate Says(accounts: seq<Account>, taken: seq<Got>) {
    forall a | a in accounts :: a.received == ReadBy(taken, a.sub.id)
  }

  predicate Below(accounts: seq<Account>, nextId: nat) {
    forall a | a in accounts :: a.sub.id < nextId
  }

  /** Ids name subscribers, past and present, and each account's record of what was
      read is what that subscriber took. */
  predicate Logged(l: Ledger) {
    && IdsOk(Subs(l.accounts), l.nextId) && Below(l.gone, l.nextId) && Apart(l.accounts, l.gone)
    && (forall t | t in l.taken :: t.id < l.nextId)
    && Says(l.accounts, l.taken) && Says(l.gone, l.taken)
  }

  lemma IdIsBelow(l: Ledger, a: Account)
    requires IdsOk(Subs(l.accounts), l.nextId) && a in l.accounts
    ensures a.sub in Subs(l.accounts) && a.sub.id < l.nextId
  {
    var i :| 0 <= i < |l.accounts| && l.accounts[i] == a;
    assert Subs(l.accounts)[i] == a.sub;
  }

  lemma DifferentSubsDifferentIds(l: Ledger, a: Account, b: Account)
    requires IdsOk(Subs(l.accounts), l.nextId) && a in l.accounts && b in l.accounts && a != b
    ensures a.sub.id != b.sub.id
  {
    var subs := Subs(l.accounts);
    var i :| 0 <= i < |l.accounts| && l.accounts[i] == a;
    var j :| 0 <= j < |l.accounts| && l.accounts[j] == b;
    assert subs[i] == a.sub && subs[j] == b.sub;
    assert subs[if i < j then i else j].id != subs[if i < j then j else i].id;
  }

  lemma {:induction false} NextForFinds(subs: seq<Subscriber>, id: nat)
    ensures NextFor(subs, id).Some? <==> exists s :: s in subs && Ready(s, id)
  {
    if subs != [] {
      var init := subs[..|subs| - 1];
      assert subs == init + [subs[|subs| - 1]];
      NextForFinds(init, id);
    }
  }

  /** The one account that reads gets the message, and the log names it. */
  lemma ReaderIsLogged(l: Ledger, a: Account, id: nat)
    requires Logged(l) && a in l.accounts
    ensures TakeBy(a, id).received == ReadBy(l.taken + Read(l, Taking(id)), a.sub.id)
  {
    var subs := Subs(l.accounts);
    var i :| 0 <= i < |l.accounts| && l.accounts[i] == a;
    assert subs[i] == a.sub;
    if Ready(a.sub, id) {
      OthersAreNotReady(subs, i, id, l.nextId);
      ReadByAppend(l.taken, Got(id, a.sub.queue[0]), a.sub.id);
    } else if NextFor(subs, id).Some? {
      ReaderIsElsewhere(subs, i, id, l.nextId);
      ReadByAppend(l.taken, Got(id, NextFor(subs, id).value), a.sub.id);
    } else {
      assert l.taken + [] == l.taken;
    }
  }

  lemma GoneDoNotRead(l: Ledger, g: Account, id: nat)
    requires Logged(l) && g in l.gone
    ensures g.received == ReadBy(l.taken + Read(l, Taking(id)), g.sub.id)
  {
    var subs := Subs(l.accounts);
    NextForFinds(subs, id);
    if NextFor(subs, id).Some? {
      var s :| s in subs && Ready(s, id);
      var i :| 0 <= i < |subs| && subs[i] == s;
      assert l.accounts[i] in l.accounts;
      ReadByAppend(l.taken, Got(id, NextFor(subs, id).value), g.sub.id);
    } else {
      assert l.taken + [] == l.taken;
    }
  }

  lemma ReadersSay(l: Ledger, id: nat)
    requires Logged(l)
    ensures var taken := l.taken + Read(l, Taking(id));
            Says(TakeAll(l.accounts, id), taken) && Says(l.gone, taken) && Apart(TakeAll(l.accounts, id), l.gone)
  {
    var next := TakeAll(l.accounts, id);
    forall i | 0 <= i < |next|
      ensures next[i].received == ReadBy(l.taken + Read(l, Taking(id)), next[i].sub.id)
      ensures l.accounts[i] in l.accounts && next[i].sub.id == l.accounts[i].sub.id
    {
      ReaderIsLogged(l, l.accounts[i], id);
    }
    forall g | g in l.gone ensures g.received == ReadBy(l.taken + Read(l, Taking(id)), g.sub.id) {
      GoneDoNotRead(l, g, id);
    }
  }

  lemma ReaderIsKnown(l: Ledger, id: nat)
    requires IdsOk(Subs(l.accounts), l.nextId)
    ensures forall t | t in Read(l, Taking(id)) :: t.id < l.nextId
  {
    NextForFinds(Subs(l.accounts), id);
  }

  lemma TakingKeepsLog(p: Policy, l: Ledger, id: nat)
    requires Logged(l)
    ensures Logged(Happen(p, l, Taking(id)))
  {
    LedgerFollows(p, l, Taking(id));
    StepKeepsIds(p, HubOf(l), Taking(id));
    ReadersSay(l, id);
    ReaderIsKnown(l, id);
  }

  lemma ReaderIsElsewhere(subs: seq<Subscriber>, i: nat, id: nat, nextId: nat)
    requires IdsOk(subs, nextId) && i < |subs| && !Ready(subs[i], id) && NextFor(subs, id).Some?
    ensures subs[i].id != id
  {
    NextForFinds(subs, id);
    var s :| s in subs && Ready(s, id);
    var j :| 0 <= j < |subs| && subs[j] == s;
    assert i != j && subs[if i < j then i else j].id != subs[if i < j then j else i].id;
  }

  lemma PartsStayApart(p: Policy, l: Ledger, what: Happening)
    requires Logged(l)
    ensures var staying, leaving := Part(p, l.accounts, what, false), Part(p, l.accounts, what, true);
            && Apart(staying, l.gone + leaving) && Below(l.gone + leaving, l.nextId)
            && Says(staying, l.taken) && Says(l.gone + leaving, l.taken)
  {
    var staying, leaving := Part(p, l.accounts, what, false), Part(p, l.accounts, what, true);
    PartMembers(p, l.accounts, what, false);
    PartMembers(p, l.accounts, what, true);
    forall g | g in leaving ensures g.sub.id < l.nextId {
      IdIsBelow(l, g);
    }
    forall a, g | a in staying && g in leaving ensures a.sub.id != g.sub.id {
      DifferentSubsDifferentIds(l, a, g);
    }
  }

  lemma LeavingKeepsLog(p: Policy, l: Ledger, what: Happening)
    requires Logged(l) && (what.Unsubscribing? || what.Publishing?)
    ensures Logged(Happen(p, l, what))
  {
    var v, staying := Happen(p, l, what), Part(p, l.accounts, what, false);
    LedgerFollows(p, l, what);
    StepKeepsIds(p, HubOf(l), what);
    PartsStayApart(p, l, what);
    if what.Publishing? {
      SameRecords(staying, v.accounts, v.gone, v.taken);
    }
  }

  lemma SameRecords(accounts: seq<Account>, next: seq<Account>, gone: seq<Account>, taken: seq<Got>)
    requires |next| == |accounts|
    requires forall i | 0 <= i < |next| :: next[i].sub.id == accounts[i].sub.id && next[i].received == accounts[i].received
    requires Apart(accounts, gone) && Says(accounts, taken)
    ensures Apart(next, gone) && Says(next, taken)
  {
    forall i | 0 <= i < |next| ensures accounts[i] in accounts {
    }
    forall a | a in next ensures exists b :: b in accounts && b.sub.id == a.sub.id && b.received == a.received {
      var i :| 0 <= i < |next| && next[i] == a;
      assert accounts[i] in accounts;
    }
  }

  lemma JoiningKeepsLog(p: Policy, l: Ledger, what: Happening)
    requires Logged(l) && what.Subscribing?
    ensures Logged(Happen(p, l, what))
  {
    LedgerFollows(p, l, what);
    StepKeepsIds(p, HubOf(l), what);
    NobodyElseRead(l.taken, l.nextId);
  }

  lemma ClosingKeepsLog(p: Policy, l: Ledger, id: nat)
    requires Logged(l)
    ensures Logged(Happen(p, l, Closing(id)))
  {
    LedgerFollows(p, l, Closing(id));
    StepKeepsIds(p, HubOf(l), Closing(id));
    SameRecords(l.accounts, CloseAll(p, l.accounts, id), l.gone, l.taken);
  }

  lemma KeepsLog(p: Policy, l: Ledger, what: Happening)
    requires Logged(l)
    ensures Logged(Happen(p, l, what))
  {
    match what
    case Taking(id) => TakingKeepsLog(p, l, id);
    case Unsubscribing(_) => LeavingKeepsLog(p, l, what);
    case Publishing(_, _) => LeavingKeepsLog(p, l, what);
    case Subscribing(_, _) => JoiningKeepsLog(p, l, what);
    case Closing(id) => ClosingKeepsLog(p, l, id);
  }

  lemma {:induction false} AlwaysReconciled(p: Policy, hs: seq<Happening>)
    ensures Reconciled(p, LedgerAfter(p, hs))
  {
    if hs != [] {
      AlwaysReconciled(p, hs[..|hs| - 1]);
      KeepsReconciled(p, LedgerAfter(p, hs[..|hs| - 1]), hs[|hs| - 1]);
    }
  }

  lemma {:induction false} AlwaysLogged(p: Policy, hs: seq<Happening>)
    ensures Logged(LedgerAfter(p, hs))
  {
    if hs != [] {
      AlwaysLogged(p, hs[..|hs| - 1]);
      KeepsLog(p, LedgerAfter(p, hs[..|hs| - 1]), hs[|hs| - 1]);
    }
  }

  /** For every interleaving of subscribing, unsubscribing, closing, publishing and
      reading by any number of subscribers: every account, of those who have left
      too, balances and names exactly what its subscriber read, and the global
      counter is the sum of what they shed. */
  lemma NothingGoesMissing(p: Policy, hs: seq<Happening>)
    ensures Reconciled(p, LedgerAfter(p, hs)) && Logged(LedgerAfter(p, hs))
  {
    AlwaysReconciled(p, hs);
    AlwaysLogged(p, hs);
  }

  // ---- Both dispatchers keep these accounts ----

  function Noted(what: Happening, m: Option<Message>): seq<Got> {
    if what.Taking? && m.Some? then [Got(what.id, m.value)] else []
  }

  lemma NotedIsTaken(p: Policy, l: Ledger, what: Happening)
    ensures Happen(p, l, what).taken == l.taken + Noted(what, ReplyTo(HubOf(l), what))
  {
    assert l.taken + [] == l.taken;
  }

  lemma LedgerGrows(p: Policy, hs: seq<Happening>, i: nat)
    requires i < |hs|
    ensures LedgerAfter(p, hs[..i + 1]) == Happen(p, LedgerAfter(p, hs[..i]), hs[i])
  {
    assert hs[..i + 1][..i] == hs[..i];
  }

  /** One more happening, seen from the ledger. */
  lemma LedgerStep(p: Policy, hs: seq<Happening>, i: nat)
    requires i < |hs|
    ensures var l, next := LedgerAfter(p, hs[..i]), LedgerAfter(p, hs[..i + 1]);
            && HubOf(next) == HubStep(p, HubOf(l), hs[i])
            && next.taken == l.taken + Noted(hs[i], ReplyTo(HubOf(l), hs[i]))
  {
    LedgerGrows(p, hs, i);
    LedgerFollows(p, LedgerAfter(p, hs[..i]), hs[i]);
    NotedIsTaken(p, LedgerAfter(p, hs[..i]), hs[i]);
  }

  /** The Python dispatcher through any script: its queues, its counter and all that
      was read from it are the ledger's, which is reconciled. */
  method RunPython(hs: seq<Happening>) returns (subs: seq<Subscriber>, dropped: nat, got: seq<Got>)
    ensures var l := LedgerAfter(ShedOldest, hs);
            && subs == Subs(l.accounts) && dropped == l.dropped && got == l.taken
            && Reconciled(ShedOldest, l) && Logged(l)
  {
    subs, dropped, got := PlayPython(hs);
    NothingGoesMissing(ShedOldest, hs);
  }

  method PlayPython(hs: seq<Happening>) returns (subs: seq<Subscriber>, dropped: nat, got: seq<Got>)
    ensures var l := LedgerAfter(ShedOldest, hs);
            subs == Subs(l.accounts) && dropped == l.dropped && got == l.taken
  {
    var hub := new PythonPublisher();
    got := [];
    for i := 0 to |hs|
      invariant fresh(hub) && hub.Valid()
      invariant hub.Value() == HubOf(LedgerAfter(ShedOldest, hs[..i])) && got == LedgerAfter(ShedOldest, hs[..i]).taken
    {
      LedgerStep(ShedOldest, hs, i);
      var m := hub.Act(hs[i]);
      got := got + Noted(hs[i], m);
    }
    assert hs[..|hs|] == hs;
    subs, dropped := hub.subs, hub.dropped;
  }

  /** And the Rust dispatcher through any script. */
  method RunRust(hs: seq<Happening>) returns (subs: seq<Subscriber>, dropped: nat, got: seq<Got>)
    ensures var l := LedgerAfter(ShedNewest, hs);
            && subs == Subs(l.accounts) && dropped == l.dropped && got == l.taken
            && Reconciled(ShedNewest, l) && Logged(l)
  {
    subs, dropped, got := PlayRust(hs);
    NothingGoesMissing(ShedNewest, hs);
  }

  method PlayRust(hs: seq<Happening>) returns (subs: seq<Subscriber>, dropped: nat, got: seq<Got>)
    ensures var l := LedgerAfter(ShedNewest, hs);
            subs == Subs(l.accounts) && dropped == l.dropped && got == l.taken
  {
    var hub := new RustPublisher();
    got := [];
    for i := 0 to |hs|
      invariant fresh(hub) && hub.Valid()
      invariant hub.Value() == HubOf(LedgerAfter(ShedNewest, hs[..i])) && got == LedgerAfter(ShedNewest, hs[..i]).taken
    {
      LedgerStep(ShedNewest, hs, i);
      var m := hub.Act(hs[i]);
      got := got + Noted(hs[i], m);
    }
    assert hs[..|hs|] == hs;
    subs, dropped := hub.subs, hub.dropped;
  }
}
