/** bank_import.py, in_transit_payments: which payments sent to a card are still
    on their way, by pairing each with an equal one the card has posted.

    Dates are day numbers and amounts whole cents. The pairing is proved to be
    an optimal one: no way of answering sent payments with posted ones leaves
    less money waiting. */
module InTransit {
  import opened Wrappers
  import opened Sorting

  const IN_TRANSIT_DAYS := 7
  const IN_TRANSIT_EARLY_DAYS := 3

  datatype Payment = Payment(date: int, cents: int)

  type Pairing = seq<(Payment, Payment)>

  predicate Earlier(a: Payment, b: Payment) {
    a.date < b.date || (a.date == b.date && a.cents <= b.cents)
  }

  /** A posted payment can be the arrival of a sent one. */
  predicate Answers(sent: Payment, posted: Payment) {
    posted.cents == sent.cents && posted.date >= sent.date - IN_TRANSIT_EARLY_DAYS
  }

  // ---------------------------------------------- what a pairing is at all

  ghost function Sents(pairs: Pairing): (r: seq<Payment>)
    ensures |r| == |pairs|
  {
    seq(|pairs|, i requires 0 <= i < |pairs| => pairs[i].0)
  }

  ghost function Posteds(pairs: Pairing): (r: seq<Payment>)
    ensures |r| == |pairs|
  {
    seq(|pairs|, i requires 0 <= i < |pairs| => pairs[i].1)
  }

  /** One to one: each payment, sent or posted, is used at most as often as it occurs. */
  ghost predicate IsPairing(pairs: Pairing, sent: multiset<Payment>, posted: multiset<Payment>) {
    && (forall p :: p in pairs ==> Answers(p.0, p.1))
    && multiset(Sents(pairs)) <= sent
    && multiset(Posteds(pairs)) <= posted
  }

  function Total(payments: seq<Payment>): int {
    if payments == [] then 0 else payments[0].cents + Total(payments[1..])
  }

  ghost function Answered(pairs: Pairing): int {
    Total(Sents(pairs))
  }

  function Positive(payments: seq<Payment>): (r: seq<Payment>)
    ensures forall p :: p in r ==> p.cents > 0
  {
    if payments == [] then []
    else (if payments[0].cents > 0 then [payments[0]] else []) + Positive(payments[1..])
  }

  // ------------------------------------------------- editing a pairing

  ghost function Drop(pairs: Pairing, k: nat): Pairing
    requires k < |pairs|
  {
    pairs[..k] + pairs[k + 1..]
  }

  lemma {:induction false} TotalConcat(a: seq<Payment>, b: seq<Payment>)
    ensures Total(a + b) == Total(a) + Total(b)
  {
    if a == [] {
      assert a + b == b;
    } else {
      assert (a + b)[1..] == a[1..] + b;
      TotalConcat(a[1..], b);
    }
  }

  lemma {:induction false} DropOne(pairs: Pairing, k: nat)
    requires k < |pairs|
    ensures multiset(Sents(pairs)) == multiset(Sents(Drop(pairs, k))) + multiset{pairs[k].0}
    ensures multiset(Posteds(pairs)) == multiset(Posteds(Drop(pairs, k))) + multiset{pairs[k].1}
    ensures Answered(pairs) == Answered(Drop(pairs, k)) + pairs[k].0.cents
    ensures forall p :: p in Drop(pairs, k) ==> p in pairs
  {
    var s, p := Sents(pairs), Posteds(pairs);
    assert s == s[..k] + [s[k]] + s[k + 1..];
    assert p == p[..k] + [p[k]] + p[k + 1..];
    assert Sents(Drop(pairs, k)) == s[..k] + s[k + 1..];
    assert Posteds(Drop(pairs, k)) == p[..k] + p[k + 1..];
    TotalConcat(s[..k] + [s[k]], s[k + 1..]);
    TotalConcat(s[..k], [s[k]]);
    TotalConcat(s[..k], s[k + 1..]);
    assert Total([s[k]]) == s[k].cents;
  }

  lemma {:induction false} Repost(pairs: Pairing, k: nat, posted: Payment)
    requires k < |pairs|
    ensures var moved := pairs[k := (pairs[k].0, posted)];
      && Sents(moved) == Sents(pairs)
      && multiset(Posteds(moved)) + multiset{pairs[k].1} == multiset(Posteds(pairs)) + multiset{posted}
      && forall p :: p in moved ==> p in pairs || p == (pairs[k].0, posted)
  {
    var moved := pairs[k := (pairs[k].0, posted)];
    assert Posteds(moved) == Posteds(pairs)[k := posted];
  }

  lemma SentPair(pairs: Pairing, s: Payment) returns (k: nat)
    requires s in multiset(Sents(pairs))
    ensures k < |pairs| && pairs[k].0 == s
  {
    assert s in Sents(pairs);
    k :| k < |pairs| && Sents(pairs)[k] == s;
  }

  lemma PostedPair(pairs: Pairing, p: Payment) returns (k: nat)
    requires p in multiset(Posteds(pairs))
    ensures k < |pairs| && pairs[k].1 == p
  {
    assert p in Posteds(pairs);
    k :| k < |pairs| && Posteds(pairs)[k] == p;
  }

  // ------------------------------------------------ the greedy choice

  /** The first arrival not yet used that answers `sent`. */
  function FirstHit(arrived: seq<Payment>, used: seq<bool>, sent: Payment, start: nat): (hit: Option<nat>)
    requires |used| == |arrived| && start <= |arrived|
    ensures hit.Some? ==>
      && start <= hit.value < |arrived| && !used[hit.value] && Answers(sent, arrived[hit.value])
      && forall j :: start <= j < hit.value ==> used[j] || !Answers(sent, arrived[j])
    ensures hit.None? ==> forall j :: start <= j < |arrived| ==> used[j] || !Answers(sent, arrived[j])
    decreases |arrived| - start
  {
    if start == |arrived| then None
    else if !used[start] && Answers(sent, arrived[start]) then Some(start)
    else FirstHit(arrived, used, sent, start + 1)
  }

  ghost function Greedy(sent: seq<Payment>, arrived: seq<Payment>, used: seq<bool>): Pairing
    requires |used| == |arrived|
  {
    if sent == [] then []
    else if sent[0].cents <= 0 then Greedy(sent[1..], arrived, used)
    else
      match FirstHit(arrived, used, sent[0], 0)
      case None => Greedy(sent[1..], arrived, used)
      case Some(i) => [(sent[0], arrived[i])] + Greedy(sent[1..], arrived, used[i := true])
  }

  /** The arrivals not yet used. */
  ghost function Free(arrived: seq<Payment>, used: seq<bool>): multiset<Payment>
    requires |used| == |arrived|
  {
    if arrived == [] then multiset{}
    else (if used[0] then multiset{} else multiset{arrived[0]}) + Free(arrived[1..], used[1..])
  }

  lemma {:induction false} UseOne(arrived: seq<Payment>, used: seq<bool>, i: nat)
    requires |used| == |arrived| && i < |arrived| && !used[i]
    ensures Free(arrived, used) == Free(arrived, used[i := true]) + multiset{arrived[i]}
  {
    if i > 0 {
      assert used[i := true][1..] == used[1..][i - 1 := true];
      UseOne(arrived[1..], used[1..], i - 1);
    }
  }

  lemma {:induction false} FreeAt(arrived: seq<Payment>, used: seq<bool>, p: Payment) returns (j: nat)
    requires |used| == |arrived| && p in Free(arrived, used)
    ensures j < |arrived| && !used[j] && arrived[j] == p
  {
    if !used[0] && arrived[0] == p {
      j := 0;
    } else {
      j := FreeAt(arrived[1..], used[1..], p);
      j := j + 1;
    }
  }

  lemma {:induction false} AllFree(arrived: seq<Payment>, used: seq<bool>)
    requires |used| == |arrived| && forall j :: 0 <= j < |used| ==> !used[j]
    ensures Free(arrived, used) == multiset(arrived)
  {
    if arrived != [] {
      AllFree(arrived[1..], used[1..]);
      assert arrived == [arrived[0]] + arrived[1..];
    }
  }

  lemma CancelOne(a: multiset<Payment>, b: multiset<Payment>, x: Payment)
    requires a + multiset{x} <= b + multiset{x}
    ensures a <= b
  {
    forall y ensures a[y] <= b[y] {
      assert (a + multiset{x})[y] <= (b + multiset{x})[y];
    }
  }

  lemma AvoidOne(a: multiset<Payment>, b: multiset<Payment>, x: Payment)
    requires a <= b + multiset{x} && x !in a
    ensures a <= b
  {
    forall y ensures a[y] <= b[y] {
      assert a[y] <= (b + multiset{x})[y];
    }
  }

  /** A pair whose posted side is needed elsewhere is dropped: an equal amount goes. */
  lemma GiveUp(pairs: Pairing, sent: multiset<Payment>, hit: Payment, posted: multiset<Payment>)
    returns (rest: Pairing)
    requires IsPairing(pairs, sent, posted + multiset{hit}) && hit.cents >= 0
    ensures IsPairing(rest, sent, posted)
    ensures Answered(pairs) <= Answered(rest) + hit.cents
  {
    rest := pairs;
    if hit in multiset(Posteds(pairs)) {
      var j := PostedPair(pairs, hit);
      assert pairs[j] in pairs;
      DropOne(pairs, j);
      rest := Drop(pairs, j);
      CancelOne(multiset(Posteds(rest)), posted, hit);
    } else {
      AvoidOne(multiset(Posteds(pairs)), posted, hit);
    }
  }

  /** A pair using `hit` is moved onto `freed`, a later arrival of the same amount. */
  lemma {:induction false} MoveOn(pairs: Pairing, sent: multiset<Payment>, hit: Payment, freed: Payment,
                                  posted: multiset<Payment>)
    returns (rest: Pairing)
    requires forall p :: p in pairs ==> Answers(p.0, p.1)
    requires multiset(Sents(pairs)) <= sent
    requires multiset(Posteds(pairs)) + multiset{freed} <= posted + multiset{hit}
    requires freed.cents == hit.cents && hit.date <= freed.date
    ensures IsPairing(rest, sent, posted)
    ensures Answered(pairs) == Answered(rest)
  {
    rest := pairs;
    if hit in multiset(Posteds(pairs)) {
      var j := PostedPair(pairs, hit);
      assert pairs[j] in pairs;
      Repost(pairs, j, freed);
      rest := pairs[j := (pairs[j].0, freed)];
      CancelOne(multiset(Posteds(rest)), posted, hit);
    } else {
      assert multiset(Posteds(pairs)) <= posted + multiset{hit};
      AvoidOne(multiset(Posteds(pairs)), posted, hit);
    }
  }

  /** The exchange: whatever a pairing does with `first`, letting `first` take
      `hit`, the earliest arrival that answers it, loses nothing. */
  lemma {:induction false} Exchange(pairs: Pairing, first: Payment, sent: multiset<Payment>, hit: Payment,
                                    posted: multiset<Payment>)
    returns (rest: Pairing)
    requires IsPairing(pairs, sent + multiset{first}, posted + multiset{hit})
    requires Answers(first, hit)
    requires forall p :: p in posted && Answers(first, p) ==> hit.date <= p.date
    requires first.cents >= 0
    ensures IsPairing(rest, sent, posted)
    ensures Answered(pairs) <= Answered(rest) + first.cents
  {
    if first in multiset(Sents(pairs)) {
      var k := SentPair(pairs, first);
      DropOne(pairs, k);
      var freed := pairs[k].1;
      assert pairs[k] in pairs;
      assert freed in multiset(Posteds(pairs)) && freed in posted + multiset{hit};
      CancelOne(multiset(Sents(Drop(pairs, k))), sent, first);
      rest := MoveOn(Drop(pairs, k), sent, hit, freed, posted);
    } else {
      AvoidOne(multiset(Sents(pairs)), sent, first);
      rest := GiveUp(pairs, sent, hit, posted);
    }
  }

  lemma PairFirst(pair: (Payment, Payment), rest: Pairing, sent: multiset<Payment>, posted: multiset<Payment>)
    requires IsPairing(rest, sent, posted) && Answers(pair.0, pair.1)
    ensures IsPairing([pair] + rest, sent + multiset{pair.0}, posted + multiset{pair.1})
    ensures Answered([pair] + rest) == pair.0.cents + Answered(rest)
  {
    var all := [pair] + rest;
    assert Sents(all) == [pair.0] + Sents(rest);
    assert Posteds(all) == [pair.1] + Posteds(rest);
  }

  lemma {:induction false} GreedyIsPairing(sent: seq<Payment>, arrived: seq<Payment>, used: seq<bool>)
    requires |used| == |arrived|
    ensures IsPairing(Greedy(sent, arrived, used), multiset(Positive(sent)), Free(arrived, used))
  {
    if sent != [] {
      if sent[0].cents > 0 {
        assert multiset(Positive(sent)) == multiset(Positive(sent[1..])) + multiset{sent[0]};
        match FirstHit(arrived, used, sent[0], 0) {
          case Some(i) =>
            GreedyIsPairing(sent[1..], arrived, used[i := true]);
            UseOne(arrived, used, i);
            PairFirst((sent[0], arrived[i]), Greedy(sent[1..], arrived, used[i := true]),
                      multiset(Positive(sent[1..])), Free(arrived, used[i := true]));
          case None =>
            GreedyIsPairing(sent[1..], arrived, used);
        }
      } else {
        GreedyIsPairing(sent[1..], arrived, used);
      }
    }
  }

  lemma NothingToPair(pairs: Pairing, posted: multiset<Payment>)
    requires IsPairing(pairs, multiset{}, posted)
    ensures Answered(pairs) == 0
  {
    assert multiset(Sents(pairs)) == multiset{};
    assert |Sents(pairs)| == |multiset(Sents(pairs))|;
  }

  /** No pairing answers more money than the greedy one. */
  lemma {:induction false} GreedyIsOptimal(sent: seq<Payment>, arrived: seq<Payment>, used: seq<bool>, pairs: Pairing)
    requires |used| == |arrived| && Ordered(arrived, Earlier)
    requires IsPairing(pairs, multiset(Positive(sent)), Free(arrived, used))
    ensures Answered(pairs) <= Answered(Greedy(sent, arrived, used))
  {
    if sent == [] {
      NothingToPair(pairs, Free(arrived, used));
    } else if sent[0].cents <= 0 {
      GreedyIsOptimal(sent[1..], arrived, used, pairs);
    } else {
      var first := sent[0];
      assert multiset(Positive(sent)) == multiset(Positive(sent[1..])) + multiset{first};
      match FirstHit(arrived, used, first, 0) {
        case None =>
          NobodyAnswers(first, pairs, multiset(Positive(sent[1..])), arrived, used);
          GreedyIsOptimal(sent[1..], arrived, used, pairs);
        case Some(i) =>
          EarliestAnswer(first, arrived, used, i);
          UseOne(arrived, used, i);
          var rest := Exchange(pairs, first, multiset(Positive(sent[1..])), arrived[i], Free(arrived, used[i := true]));
          GreedyIsOptimal(sent[1..], arrived, used[i := true], rest);
          GreedyIsPairing(sent[1..], arrived, used[i := true]);
          PairFirst((first, arrived[i]), Greedy(sent[1..], arrived, used[i := true]),
                    multiset(Positive(sent[1..])), Free(arrived, used[i := true]));
      }
    }
  }

  lemma {:induction false} EarliestAnswer(first: Payment, arrived: seq<Payment>, used: seq<bool>, i: nat)
    requires |used| == |arrived| && Ordered(arrived, Earlier)
    requires FirstHit(arrived, used, first, 0) == Some(i)
    ensures forall p :: p in Free(arrived, used[i := true]) && Answers(first, p) ==> arrived[i].date <= p.date
  {
    forall p | p in Free(arrived, used[i := true]) && Answers(first, p)
      ensures arrived[i].date <= p.date
    {
      var j := FreeAt(arrived, used[i := true], p);
      assert i < j;
    }
  }

  lemma {:induction false} NobodyAnswers(first: Payment, pairs: Pairing, sent: multiset<Payment>,
                                         arrived: seq<Payment>, used: seq<bool>)
    requires |used| == |arrived|
    requires forall j :: 0 <= j < |arrived| ==> used[j] || !Answers(first, arrived[j])
    requires IsPairing(pairs, sent + multiset{first}, Free(arrived, used))
    ensures IsPairing(pairs, sent, Free(arrived, used))
  {
    if first in multiset(Sents(pairs)) {
      var k := SentPair(pairs, first);
      assert pairs[k] in pairs;
      assert pairs[k].1 == Posteds(pairs)[k];
      assert pairs[k].1 in multiset(Posteds(pairs));
      var j := FreeAt(arrived, used, pairs[k].1);
      assert false;
    }
  }

  // --------------------------------------------- the matcher, as it runs

  lemma EarlierIsTotal()
    ensures TotalOrder(Earlier)
  {
  }

  ghost predicate IsAssignment(pairs: Pairing, sent: seq<Payment>, posted: seq<Payment>) {
    IsPairing(pairs, multiset(Positive(sent)), multiset(posted))
  }

  /** The least that can be left waiting, over every way of pairing. */
  ghost predicate IsLeastWaiting(waiting: int, sent: seq<Payment>, posted: seq<Payment>) {
    && (exists pairs :: IsAssignment(pairs, sent, posted) && waiting == Total(Positive(sent)) - Answered(pairs))
    && (forall pairs :: IsAssignment(pairs, sent, posted) ==> waiting <= Total(Positive(sent)) - Answered(pairs))
  }

  lemma {:induction false} TotalDropsOne(s: seq<Payment>, k: nat)
    requires k < |s|
    ensures Total(s) == Total(s[..k] + s[k + 1..]) + s[k].cents
  {
    assert s == s[..k] + ([s[k]] + s[k + 1..]);
    TotalConcat(s[..k], [s[k]] + s[k + 1..]);
    TotalConcat(s[..k], s[k + 1..]);
  }

  lemma BagDropsOne(s: seq<Payment>, k: nat)
    requires k < |s|
    ensures multiset(s) == multiset(s[..k] + s[k + 1..]) + multiset{s[k]}
  {
    assert s == s[..k] + [s[k]] + s[k + 1..];
  }

  lemma {:induction false} PositiveBag(s: seq<Payment>)
    ensures forall p :: multiset(Positive(s))[p] == if p.cents > 0 then multiset(s)[p] else 0
  {
    if s != [] {
      PositiveBag(s[1..]);
      assert s == [s[0]] + s[1..];
    }
  }

  lemma {:induction false} TotalOfPermutation(a: seq<Payment>, b: seq<Payment>)
    requires multiset(a) == multiset(b)
    ensures Total(a) == Total(b)
  {
    if a == [] {
      assert |multiset(b)| == 0;
    } else {
      assert a == [a[0]] + a[1..];
      assert a[0] in multiset(b);
      var k :| 0 <= k < |b| && b[k] == a[0];
      BagDropsOne(b, k);
      CancelOne(multiset(a[1..]), multiset(b[..k] + b[k + 1..]), a[0]);
      CancelOne(multiset(b[..k] + b[k + 1..]), multiset(a[1..]), a[0]);
      TotalDropsOne(b, k);
      TotalOfPermutation(a[1..], b[..k] + b[k + 1..]);
    }
  }

  lemma PositiveOfPermutation(a: seq<Payment>, b: seq<Payment>)
    requires multiset(a) == multiset(b)
    ensures multiset(Positive(a)) == multiset(Positive(b))
    ensures Total(Positive(a)) == Total(Positive(b))
  {
    PositiveBag(a);
    PositiveBag(b);
    TotalOfPermutation(Positive(a), Positive(b));
  }

  ghost function Unused(n: nat): (used: seq<bool>)
    ensures |used| == n && forall j :: 0 <= j < n ==> !used[j]
  {
    seq(n, _ => false)
  }

  ghost function GreedyWaiting(payments: seq<Payment>, arrived: seq<Payment>, used: seq<bool>): int
    requires |used| == |arrived|
  {
    Total(Positive(payments)) - Answered(Greedy(payments, arrived, used))
  }

  /** What earliest-first pairing leaves waiting, whatever order the lists came in. */
  ghost function LeastWaiting(sent: seq<Payment>, posted: seq<Payment>): int {
    GreedyWaiting(Sort(sent, Earlier), Sort(posted, Earlier), Unused(|Sort(posted, Earlier)|))
  }

  /** It is the least any pairing leaves. */
  lemma LeastWaitingIsLeast(sent: seq<Payment>, posted: seq<Payment>)
    ensures IsLeastWaiting(LeastWaiting(sent, posted), sent, posted)
  {
    var payments, arrived := Sort(sent, Earlier), Sort(posted, Earlier);
    var used := Unused(|arrived|);
    EarlierIsTotal();
    SortOrders(posted, Earlier);
    SortPermutes(sent, Earlier);
    SortPermutes(posted, Earlier);
    AllFree(arrived, used);
    PositiveOfPermutation(payments, sent);
    GreedyIsPairing(payments, arrived, used);
    assert IsAssignment(Greedy(payments, arrived, used), sent, posted);
    forall other | IsAssignment(other, sent, posted)
      ensures Answered(other) <= Answered(Greedy(payments, arrived, used))
    {
      GreedyIsOptimal(payments, arrived, used, other);
    }
  }

  lemma PositiveStep(payments: seq<Payment>)
    requires payments != []
    ensures Total(Positive(payments))
         == (if payments[0].cents > 0 then payments[0].cents else 0) + Total(Positive(payments[1..]))
  {
    if payments[0].cents > 0 {
      assert Positive(payments)[1..] == Positive(payments[1..]);
    } else {
      assert Positive(payments) == Positive(payments[1..]);
    }
  }

  lemma GreedyStep(payments: seq<Payment>, arrived: seq<Payment>, used: seq<bool>)
    requires |used| == |arrived| && payments != []
    ensures GreedyWaiting(payments, arrived, used) ==
      if payments[0].cents <= 0 then GreedyWaiting(payments[1..], arrived, used)
      else match FirstHit(arrived, used, payments[0], 0)
           case None => payments[0].cents + GreedyWaiting(payments[1..], arrived, used)
           case Some(i) => GreedyWaiting(payments[1..], arrived, used[i := true])
  {
    PositiveStep(payments);
    if payments[0].cents > 0 && FirstHit(arrived, used, payments[0], 0).Some? {
      var i := FirstHit(arrived, used, payments[0], 0).value;
      var rest := Greedy(payments[1..], arrived, used[i := true]);
      GreedyIsPairing(payments[1..], arrived, used[i := true]);
      PairFirst((payments[0], arrived[i]), rest, multiset(Positive(payments[1..])), Free(arrived, used[i := true]));
    }
  }

  /** Both lists sorted: each payment takes the first unused arrival that answers it. */
  method PairEarliestFirst(payments: seq<Payment>, arrived: seq<Payment>) returns (waiting: int)
    ensures waiting == GreedyWaiting(payments, arrived, Unused(|arrived|))
    ensures waiting >= 0
  {
    var used := new bool[|arrived|](_ => false);
    ghost var flags := Unused(|arrived|);
    ghost var goal := GreedyWaiting(payments, arrived, flags);
    waiting := 0;
    assert payments == payments[0..];
    for k := 0 to |payments|
      invariant 0 <= waiting
      invariant flags == used[..]
      invariant goal == waiting + GreedyWaiting(payments[k..], arrived, flags)
    {
      assert payments[k..][1..] == payments[k + 1..];
      GreedyStep(payments[k..], arrived, flags);
      if payments[k].cents > 0 {
        var hit := FirstHit(arrived, used[..], payments[k], 0);
        if hit.None? {
          waiting := waiting + payments[k].cents;
        } else {
          flags := flags[hit.value := true];
          used[hit.value] := true;
        }
      }
    }
    assert payments[|payments|..] == [];
  }

  /** One card: earliest sent first. */
  method WaitingOnCard(sent: seq<Payment>, posted: seq<Payment>) returns (waiting: int)
    ensures waiting == LeastWaiting(sent, posted)
    ensures waiting >= 0
  {
    waiting := PairEarliestFirst(Sort(sent, Earlier), Sort(posted, Earlier));
  }

  // --------------------------------------------- which payments are looked at

  datatype Category = Category(id: int, isCard: bool, card: int)
  datatype Expense = Expense(category: int, date: int, cents: int, isBucket: bool)
  datatype Transaction = Transaction(account: string, date: int, cents: int, pending: bool, outflow: bool)

  /** Payment category to card, for the cards asked about; a later row wins. */
  function MirrorOf(categories: seq<Category>, cards: set<int>): map<int, int> {
    if categories == [] then map[]
    else
      var last := categories[|categories| - 1];
      var before := MirrorOf(categories[..|categories| - 1], cards);
      if last.isCard && last.card in cards then before[last.id := last.card] else before
  }

  function SentTo(card: int, mirrors: map<int, int>, expenses: seq<Expense>, asOf: int): seq<Payment> {
    if expenses == [] then []
    else
      var e := expenses[0];
      (if e.category in mirrors && mirrors[e.category] == card && !e.isBucket
          && asOf - (IN_TRANSIT_DAYS - 1) <= e.date <= asOf
       then [Payment(e.date, e.cents)] else [])
      + SentTo(card, mirrors, expenses[1..], asOf)
  }

  function PostedOn(account: string, transactions: seq<Transaction>, asOf: int): seq<Payment> {
    if transactions == [] then []
    else
      var t := transactions[0];
      (if t.account == account && !t.pending && !t.outflow && t.date <= asOf
       then [Payment(t.date, t.cents)] else [])
      + PostedOn(account, transactions[1..], asOf)
  }

  /** The cards something is waiting on, and how much. */
  ghost function WaitingMap(cards: seq<int>, waitingOn: int -> int): map<int, int> {
    if cards == [] then map[]
    else
      var n := |cards| - 1;
      var before := WaitingMap(cards[..n], waitingOn);
      if waitingOn(cards[n]) != 0 then before[cards[n] := waitingOn(cards[n])] else before
  }

  lemma {:induction false} WaitingMapAt(cards: seq<int>, waitingOn: int -> int, card: int)
    ensures
      var out := WaitingMap(cards, waitingOn);
      && (card in out <==> card in cards && waitingOn(card) != 0)
      && (card in out ==> out[card] == waitingOn(card))
  {
    if cards != [] {
      var n := |cards| - 1;
      assert cards == cards[..n] + [cards[n]];
      WaitingMapAt(cards[..n], waitingOn, card);
    }
  }

  /** What one card is waiting for. */
  ghost function CardWaiting(links: map<int, string>, mirrors: map<int, int>, expenses: seq<Expense>,
                             transactions: seq<Transaction>, asOf: int): int -> int {
    card =>
      if card in links
      then LeastWaiting(SentTo(card, mirrors, expenses, asOf), PostedOn(links[card], transactions, asOf))
      else 0
  }

  /** A card is reported exactly when something waits on it, and then with the
      least any pairing of its payments would leave waiting. */
  lemma ReportedIsLeast(links: map<int, string>, mirrors: map<int, int>, expenses: seq<Expense>,
                        transactions: seq<Transaction>, asOf: int, card: int)
    requires card in links
    ensures
      var out := WaitingMap(AscendingList(links.Keys), CardWaiting(links, mirrors, expenses, transactions, asOf));
      IsLeastWaiting(if card in out then out[card] else 0,
                     SentTo(card, mirrors, expenses, asOf), PostedOn(links[card], transactions, asOf))
  {
    var waitingOn := CardWaiting(links, mirrors, expenses, transactions, asOf);
    AscendingListIs(links.Keys);
    WaitingMapAt(AscendingList(links.Keys), waitingOn, card);
    LeastWaitingIsLeast(SentTo(card, mirrors, expenses, asOf), PostedOn(links[card], transactions, asOf));
  }

  // ------------------------------------------------ which rows count at all

  /** What is answered, card by card. */
  ghost function InTransit(links: map<int, string>, categories: seq<Category>, expenses: seq<Expense>,
                           transactions: seq<Transaction>, asOf: int): map<int, int>
  {
    WaitingMap(AscendingList(links.Keys),
               CardWaiting(links, MirrorOf(categories, links.Keys), expenses, transactions, asOf))
  }

  function Without<T>(rows: seq<T>, k: nat): seq<T>
    requires k < |rows|
  {
    rows[..k] + rows[k + 1..]
  }

  lemma {:induction false} PostedWithout(account: string, transactions: seq<Transaction>, asOf: int, k: nat)
    requires k < |transactions|
    requires transactions[k].pending || transactions[k].outflow || transactions[k].date > asOf
             || transactions[k].account != account
    ensures PostedOn(account, Without(transactions, k), asOf) == PostedOn(account, transactions, asOf)
  {
    if k == 0 {
      assert Without(transactions, 0) == transactions[1..];
    } else {
      assert Without(transactions, k)[0] == transactions[0];
      assert Without(transactions, k)[1..] == Without(transactions[1..], k - 1);
      PostedWithout(account, transactions[1..], asOf, k - 1);
    }
  }

  lemma {:induction false} SentWithout(card: int, mirrors: map<int, int>, expenses: seq<Expense>, asOf: int, k: nat)
    requires k < |expenses|
    requires expenses[k].isBucket || expenses[k].date > asOf || expenses[k].date < asOf - 6
             || expenses[k].category !in mirrors || mirrors[expenses[k].category] != card
    ensures SentTo(card, mirrors, Without(expenses, k), asOf) == SentTo(card, mirrors, expenses, asOf)
  {
    if k == 0 {
      assert Without(expenses, 0) == expenses[1..];
    } else {
      assert Without(expenses, k)[0] == expenses[0];
      assert Without(expenses, k)[1..] == Without(expenses[1..], k - 1);
      SentWithout(card, mirrors, expenses[1..], asOf, k - 1);
    }
  }

  lemma {:induction false} SameWaiting(cards: seq<int>, one: int -> int, two: int -> int)
    requires forall card :: card in cards ==> one(card) == two(card)
    ensures WaitingMap(cards, one) == WaitingMap(cards, two)
  {
    if cards != [] {
      var n := |cards| - 1;
      assert cards == cards[..n] + [cards[n]];
      SameWaiting(cards[..n], one, two);
      var last := cards[n];
      assert last in cards && one(last) == two(last);
    }
  }

  /** A pending row, money going out, a later row, a row of an account no card is
      linked to: none of them is an arrival. */
  lemma NoArrival(links: map<int, string>, categories: seq<Category>, expenses: seq<Expense>,
                  transactions: seq<Transaction>, asOf: int, k: nat)
    requires k < |transactions|
    requires transactions[k].pending || transactions[k].outflow || transactions[k].date > asOf
             || transactions[k].account !in links.Values
    ensures InTransit(links, categories, expenses, Without(transactions, k), asOf)
         == InTransit(links, categories, expenses, transactions, asOf)
  {
    var mirrors := MirrorOf(categories, links.Keys);
    forall card | card in AscendingList(links.Keys)
      ensures CardWaiting(links, mirrors, expenses, Without(transactions, k), asOf)(card)
           == CardWaiting(links, mirrors, expenses, transactions, asOf)(card)
    {
      if card in links {
        assert links[card] in links.Values;
        PostedWithout(links[card], transactions, asOf, k);
      }
    }
    SameWaiting(AscendingList(links.Keys), CardWaiting(links, mirrors, expenses, Without(transactions, k), asOf),
                CardWaiting(links, mirrors, expenses, transactions, asOf));
  }

  /** Whether some row makes a category a linked card's. */
  ghost predicate IsMirror(categories: seq<Category>, cards: set<int>, id: int) {
    exists i :: 0 <= i < |categories| && categories[i].id == id && categories[i].isCard && categories[i].card in cards
  }

  lemma {:induction false} MirrorHas(categories: seq<Category>, cards: set<int>, id: int)
    ensures id in MirrorOf(categories, cards) <==> IsMirror(categories, cards, id)
  {
    if categories != [] {
      var n := |categories| - 1;
      MirrorHas(categories[..n], cards, id);
      if IsMirror(categories, cards, id) {
        var i :| 0 <= i < |categories| && categories[i].id == id && categories[i].isCard && categories[i].card in cards;
        if i < n {
          assert categories[..n][i] == categories[i];
        }
      }
    }
  }

  lemma {:induction false} MirrorIs(categories: seq<Category>, cards: set<int>, i: nat)
    requires i < |categories| && categories[i].isCard && categories[i].card in cards
    requires forall j :: i < j < |categories| && categories[j].id == categories[i].id ==>
               !categories[j].isCard || categories[j].card !in cards
    ensures categories[i].id in MirrorOf(categories, cards)
    ensures MirrorOf(categories, cards)[categories[i].id] == categories[i].card
  {
    if i < |categories| - 1 {
      MirrorIs(categories[..|categories| - 1], cards, i);
    }
  }

  /** A forecast, spending before the last seven days or after the day, spending in a
      category that pays no linked card: none of them is a payment sent. */
  lemma {:induction false} NotSent(links: map<int, string>, categories: seq<Category>, expenses: seq<Expense>,
                                   transactions: seq<Transaction>, asOf: int, k: nat)
    requires k < |expenses|
    requires expenses[k].isBucket || expenses[k].date > asOf || expenses[k].date < asOf - 6
             || forall i :: 0 <= i < |categories| && categories[i].id == expenses[k].category ==>
                              !categories[i].isCard || categories[i].card !in links
    ensures InTransit(links, categories, Without(expenses, k), transactions, asOf)
         == InTransit(links, categories, expenses, transactions, asOf)
  {
    var mirrors := MirrorOf(categories, links.Keys);
    MirrorHas(categories, links.Keys, expenses[k].category);
    forall card | card in AscendingList(links.Keys)
      ensures CardWaiting(links, mirrors, Without(expenses, k), transactions, asOf)(card)
           == CardWaiting(links, mirrors, expenses, transactions, asOf)(card)
    {
      SentWithout(card, mirrors, expenses, asOf, k);
    }
    SameWaiting(AscendingList(links.Keys), CardWaiting(links, mirrors, Without(expenses, k), transactions, asOf),
                CardWaiting(links, mirrors, expenses, transactions, asOf));
  }

  lemma {:induction false} PostedHas(account: string, transactions: seq<Transaction>, asOf: int, p: Payment)
    ensures p in PostedOn(account, transactions, asOf)
            <==> exists i :: 0 <= i < |transactions| && transactions[i].account == account
                             && !transactions[i].pending && !transactions[i].outflow && transactions[i].date <= asOf
                             && transactions[i].date == p.date && transactions[i].cents == p.cents
  {
    if transactions != [] {
      var t, rest := transactions[0], transactions[1..];
      PostedHas(account, rest, asOf, p);
      assert forall i :: 1 <= i < |transactions| ==> transactions[i] == rest[i - 1];
    }
  }

  lemma NothingSent(posted: seq<Payment>)
    ensures LeastWaiting([], posted) == 0
  {
    LeastWaitingIsLeast([], posted);
    assert Positive([]) == [];
    forall pairs | IsAssignment(pairs, [], posted) ensures Answered(pairs) == 0 {
      assert |Sents(pairs)| == |multiset(Sents(pairs))| == 0;
    }
  }

  /** One payment waits unless something posted answers it. */
  lemma {:induction false} OneSent(sent: Payment, posted: seq<Payment>)
    requires sent.cents > 0
    ensures LeastWaiting([sent], posted)
         == if exists p :: p in posted && p.cents == sent.cents && p.date >= sent.date - 3 then 0 else sent.cents
  {
    var arrived := Sort(posted, Earlier);
    var used := Unused(|arrived|);
    SortPermutes(posted, Earlier);
    assert Sort([sent], Earlier) == [sent];
    GreedyStep([sent], arrived, used);
    assert forall flags :: |flags| == |arrived| ==> GreedyWaiting([], arrived, flags) == 0;
    var hit := FirstHit(arrived, used, sent, 0);
    if hit.Some? {
      assert arrived[hit.value] in multiset(arrived);
    } else {
      forall p | p in posted ensures !(p.cents == sent.cents && p.date >= sent.date - 3) {
        assert p in multiset(arrived);
        var j :| 0 <= j < |arrived| && arrived[j] == p;
        assert !Answers(sent, arrived[j]);
      }
    }
  }

  /** One real payment within the seven days, in a payment category of a linked card: it is
      reported, on that card and for its amount, unless the card's account has money
      settled in by the day, of the same amount and no more than three days before it. */
  lemma {:induction false} OnePaymentSent(links: map<int, string>, categories: seq<Category>, e: Expense,
                                          transactions: seq<Transaction>, asOf: int, i: nat)
    requires i < |categories| && categories[i].id == e.category && categories[i].isCard && categories[i].card in links
    requires forall j :: i < j < |categories| && categories[j].id == e.category ==>
               !categories[j].isCard || categories[j].card !in links
    requires !e.isBucket && e.cents > 0 && asOf - 6 <= e.date <= asOf
    ensures
      var card := categories[i].card;
      InTransit(links, categories, [e], transactions, asOf)
      == if exists k :: 0 <= k < |transactions| && transactions[k].account == links[card]
                        && !transactions[k].pending && !transactions[k].outflow && transactions[k].date <= asOf
                        && transactions[k].cents == e.cents && transactions[k].date >= e.date - 3
         then map[] else map[card := e.cents]
  {
    var (card, mirrors) := (categories[i].card, MirrorOf(categories, links.Keys));
    var waitingOn := CardWaiting(links, mirrors, [e], transactions, asOf);
    var posted := PostedOn(links[card], transactions, asOf);
    MirrorIs(categories, links.Keys, i);
    assert SentTo(card, mirrors, [e], asOf) == [Payment(e.date, e.cents)];
    OneSent(Payment(e.date, e.cents), posted);
    AnsweredOnTheAccount(links[card], transactions, asOf, e);
    AscendingListIs(links.Keys);
    forall other ensures
      (other in WaitingMap(AscendingList(links.Keys), waitingOn) <==> other == card && waitingOn(card) != 0)
    {
      WaitingMapAt(AscendingList(links.Keys), waitingOn, other);
      if other != card && other in links {
        assert SentTo(other, mirrors, [e], asOf) == [];
        NothingSent(PostedOn(links[other], transactions, asOf));
      }
    }
    WaitingMapAt(AscendingList(links.Keys), waitingOn, card);
  }

  lemma {:induction false} AnsweredOnTheAccount(account: string, transactions: seq<Transaction>, asOf: int, e: Expense)
    ensures (exists p :: p in PostedOn(account, transactions, asOf) && p.cents == e.cents && p.date >= e.date - 3)
            <==> exists k :: 0 <= k < |transactions| && transactions[k].account == account
                             && !transactions[k].pending && !transactions[k].outflow && transactions[k].date <= asOf
                             && transactions[k].cents == e.cents && transactions[k].date >= e.date - 3
  {
    var posted := PostedOn(account, transactions, asOf);
    forall p | p in posted && p.cents == e.cents && p.date >= e.date - 3
      ensures exists k :: 0 <= k < |transactions| && transactions[k].account == account
                          && !transactions[k].pending && !transactions[k].outflow && transactions[k].date <= asOf
                          && transactions[k].cents == e.cents && transactions[k].date >= e.date - 3
    {
      PostedHas(account, transactions, asOf, p);
    }
    forall k | 0 <= k < |transactions| && transactions[k].account == account
               && !transactions[k].pending && !transactions[k].outflow && transactions[k].date <= asOf
               && transactions[k].cents == e.cents && transactions[k].date >= e.date - 3
      ensures Payment(transactions[k].date, transactions[k].cents) in posted
    {
      PostedHas(account, transactions, asOf, Payment(transactions[k].date, transactions[k].cents));
    }
  }

  /** in_transit_payments, for every linked card at once. */
  method InTransitPayments(cardLinks: map<int, string>, categories: seq<Category>, expenses: seq<Expense>,
                           transactions: seq<Transaction>, asOf: int)
    returns (out: map<int, int>)
    ensures out == InTransit(cardLinks, categories, expenses, transactions, asOf)
  {
    AscendingListIs(cardLinks.Keys);
    out := EachCard(AscendingList(cardLinks.Keys), cardLinks, MirrorOf(categories, cardLinks.Keys), expenses,
                    transactions, asOf);
  }

  method EachCard(cards: seq<int>, cardLinks: map<int, string>, mirrors: map<int, int>, expenses: seq<Expense>,
                  transactions: seq<Transaction>, asOf: int)
    returns (out: map<int, int>)
    requires forall card :: card in cards <==> card in cardLinks.Keys
    ensures out == WaitingMap(cards, CardWaiting(cardLinks, mirrors, expenses, transactions, asOf))
  {
    out := map[];
    ghost var waitingOn := CardWaiting(cardLinks, mirrors, expenses, transactions, asOf);
    for k := 0 to |cards|
      invariant out == WaitingMap(cards[..k], waitingOn)
    {
      var card := cards[k];
      assert card in cards;
      assert cards[..k + 1][..k] == cards[..k];
      var waiting := WaitingOnCard(SentTo(card, mirrors, expenses, asOf),
                                   PostedOn(cardLinks[card], transactions, asOf));
      assert waiting == waitingOn(card);
      if waiting != 0 {
        out := out[card := waiting];
      }
    }
    assert cards[..|cards|] == cards;
  }
}
