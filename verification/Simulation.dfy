/** The monthly report's counterfactuals: rewards re-run over the month's spends with every card's
    cap consumption carried along. A card's reward engine is any function of the spend and of the
    consumption of the cap that applies to it. */
module Simulation {
  import opened Basics

  type Id = nat

  /** `card` is the card the spend was made with; `details` what it is priced on. */
  datatype Txn = Txn(id: Id, card: Id, details: nat)

  datatype Reward = Reward(value: real, delta: real)

  datatype Entry = Entry(card: Id, cap: nat -> Option<Id>, reward: (nat, real) -> Reward)

  function Get<K>(m: map<K, real>, k: K): real { if k in m then m[k] else 0.0 }

  predicate DistinctCards(cards: seq<Entry>) {
    forall i, j :: 0 <= i < j < |cards| ==> cards[i].card != cards[j].card
  }

  // ---- one card on its own -----------------------------------------------------------------------------

  datatype Single = Single(consumed: map<Id, real>, total: real)

  function SingleStep(e: Entry, s: Single, t: Txn): Single {
    var cap := e.cap(t.details);
    var before := if cap.Some? then Get(s.consumed, cap.value) else 0.0;
    var r := e.reward(t.details, before);
    Single(if cap.Some? && r.delta != 0.0 then s.consumed[cap.value := before + r.delta] else s.consumed,
           s.total + r.value)
  }

  function SingleRun(e: Entry, s: Single, txns: seq<Txn>): Single
    decreases |txns|
  {
    if txns == [] then s else SingleRun(e, SingleStep(e, s, txns[0]), txns[1..])
  }

  /** `evaluateSingleCard`. */
  method EvaluateSingleCard(e: Entry, txns: seq<Txn>) returns (total: real)
    ensures total == SingleRun(e, Single(map[], 0.0), txns).total
  {
    var consumed: map<Id, real>, i := map[], 0;
    total := 0.0;
    while i < |txns|
      invariant 0 <= i <= |txns|
      invariant SingleRun(e, Single(consumed, total), txns[i..]) == SingleRun(e, Single(map[], 0.0), txns)
    {
      var cap := e.cap(txns[i].details);
      var before := if cap.Some? then Get(consumed, cap.value) else 0.0;
      var r := e.reward(txns[i].details, before);
      if cap.Some? && r.delta != 0.0 {
        consumed := consumed[cap.value := before + r.delta];
      }
      total := total + r.value;
      assert txns[i..][1..] == txns[i + 1..];
      i := i + 1;
    }
    assert txns[|txns|..] == [];
  }

  // ---- a wallet ----------------------------------------------------------------------------------------

  datatype Wallet = Wallet(consumed: map<(Id, Id), real>, total: real, byCard: map<Id, real>)

  /** The first entry of a card. */
  function Find(cards: seq<Entry>, card: Id): (i: Option<nat>)
    ensures i.Some? ==> i.value < |cards| && cards[i.value].card == card
    ensures i.None? ==> forall j :: 0 <= j < |cards| ==> cards[j].card != card
  {
    if cards == [] then None
    else if cards[0].card == card then Some(0)
    else
      var rest := Find(cards[1..], card);
      if rest.None? then None else Some(rest.value + 1)
  }

  function Before(e: Entry, consumed: map<(Id, Id), real>, details: nat): real {
    var cap := e.cap(details);
    if cap.Some? then Get(consumed, (e.card, cap.value)) else 0.0
  }

  function Earned(e: Entry, consumed: map<(Id, Id), real>, details: nat): Reward {
    e.reward(details, Before(e, consumed, details))
  }

  function Consume(e: Entry, consumed: map<(Id, Id), real>, details: nat): map<(Id, Id), real> {
    var cap, r := e.cap(details), Earned(e, consumed, details);
    if cap.Some? && r.delta != 0.0 then consumed[(e.card, cap.value) := Before(e, consumed, details) + r.delta]
    else consumed
  }

  function WalletStep(cards: seq<Entry>, w: Wallet, t: Txn): Wallet {
    var i := Find(cards, t.card);
    if i.None? then w
    else
      var e := cards[i.value];
      var r := Earned(e, w.consumed, t.details);
      Wallet(Consume(e, w.consumed, t.details), w.total + r.value, w.byCard[t.card := Get(w.byCard, t.card) + r.value])
  }

  function WalletRun(cards: seq<Entry>, w: Wallet, txns: seq<Txn>): Wallet
    decreases |txns|
  {
    if txns == [] then w else WalletRun(cards, WalletStep(cards, w, txns[0]), txns[1..])
  }

  function Empty(): Wallet { Wallet(map[], 0.0, map[]) }

  /** `evaluateWallet`. */
  method EvaluateWallet(cards: seq<Entry>, txns: seq<Txn>) returns (total: real, byCard: map<Id, real>)
    ensures total == WalletRun(cards, Empty(), txns).total && byCard == WalletRun(cards, Empty(), txns).byCard
  {
    var consumed: map<(Id, Id), real>, i := map[], 0;
    total, byCard := 0.0, map[];
    while i < |txns|
      invariant 0 <= i <= |txns|
      invariant WalletRun(cards, Wallet(consumed, total, byCard), txns[i..]) == WalletRun(cards, Empty(), txns)
    {
      assert txns[i..][1..] == txns[i + 1..];
      var t := txns[i];
      i := i + 1;
      var found := Find(cards, t.card);
      if found.None? {
        continue;
      }
      var e := cards[found.value];
      var cap, before := e.cap(t.details), Before(e, consumed, t.details);
      var r := e.reward(t.details, before);
      if cap.Some? && r.delta != 0.0 {
        consumed := consumed[(e.card, cap.value) := before + r.delta];
      }
      total := total + r.value;
      byCard := byCard[t.card := Get(byCard, t.card) + r.value];
    }
    assert txns[|txns|..] == [];
  }

  // ---- the wallet is its cards --------------------------------------------------------------------------

  function AssignedTo(txns: seq<Txn>, card: Id): seq<Txn> {
    if txns == [] then []
    else (if txns[0].card == card then [txns[0]] else []) + AssignedTo(txns[1..], card)
  }

  /** What the wallet has of one card is what that card has on its own. */
  ghost predicate Agree(w: Wallet, s: Single, card: Id) {
    Get(w.byCard, card) == s.total && forall cap :: Get(w.consumed, (card, cap)) == Get(s.consumed, cap)
  }

  lemma FindDistinct(cards: seq<Entry>, i: nat)
    requires DistinctCards(cards) && i < |cards|
    ensures Find(cards, cards[i].card) == Some(i)
  {
  }

  lemma StepAgrees(cards: seq<Entry>, w: Wallet, s: Single, i: nat, t: Txn)
    requires DistinctCards(cards) && i < |cards| && Agree(w, s, cards[i].card)
    ensures t.card == cards[i].card ==> Agree(WalletStep(cards, w, t), SingleStep(cards[i], s, t), cards[i].card)
    ensures t.card != cards[i].card ==> Agree(WalletStep(cards, w, t), s, cards[i].card)
  {
  }

  lemma {:induction false} RunAgrees(cards: seq<Entry>, w: Wallet, s: Single, i: nat, txns: seq<Txn>)
    requires DistinctCards(cards) && i < |cards| && Agree(w, s, cards[i].card)
    ensures Agree(WalletRun(cards, w, txns), SingleRun(cards[i], s, AssignedTo(txns, cards[i].card)), cards[i].card)
    decreases |txns|
  {
    if txns != [] {
      hide WalletStep, SingleStep, Agree;
      StepAgrees(cards, w, s, i, txns[0]);
      var rest := AssignedTo(txns[1..], cards[i].card);
      if txns[0].card == cards[i].card {
        RunAgrees(cards, WalletStep(cards, w, txns[0]), SingleStep(cards[i], s, txns[0]), i, txns[1..]);
        assert ([txns[0]] + rest)[1..] == rest;
      } else {
        RunAgrees(cards, WalletStep(cards, w, txns[0]), s, i, txns[1..]);
        assert [] + rest == rest;
      }
    }
  }

  /** Each card's share of a wallet is what that card alone earns on the spends assigned to it. */
  lemma ShareIsSingleCard(cards: seq<Entry>, i: nat, txns: seq<Txn>)
    requires DistinctCards(cards) && i < |cards|
    ensures Get(WalletRun(cards, Empty(), txns).byCard, cards[i].card)
         == SingleRun(cards[i], Single(map[], 0.0), AssignedTo(txns, cards[i].card)).total
  {
    RunAgrees(cards, Empty(), Single(map[], 0.0), i, txns);
  }

  function ShareSum(cards: seq<Entry>, byCard: map<Id, real>): real {
    if cards == [] then 0.0 else ShareSum(cards[..|cards| - 1], byCard) + Get(byCard, cards[|cards| - 1].card)
  }

  lemma {:induction false} ShareSumAdd(cards: seq<Entry>, byCard: map<Id, real>, card: Id, value: real)
    requires DistinctCards(cards)
    ensures ShareSum(cards, byCard[card := Get(byCard, card) + value])
         == ShareSum(cards, byCard) + if Find(cards, card).Some? then value else 0.0
  {
    if cards != [] {
      var init, last := cards[..|cards| - 1], cards[|cards| - 1];
      ShareSumAdd(init, byCard, card, value);
      var i := Find(cards, card);
      var j := Find(init, card);
      assert j.Some? ==> cards[j.value].card == card && last.card != card;
      assert i.Some? && i.value < |init| ==> init[i.value].card == card;
    }
  }

  lemma {:induction false} TotalIsShares(cards: seq<Entry>, w: Wallet, txns: seq<Txn>)
    requires DistinctCards(cards) && w.total == ShareSum(cards, w.byCard)
    ensures var r := WalletRun(cards, w, txns); r.total == ShareSum(cards, r.byCard)
    decreases |txns|
  {
    if txns != [] {
      var i := Find(cards, txns[0].card);
      if i.Some? {
        ShareSumAdd(cards, w.byCard, txns[0].card, Earned(cards[i.value], w.consumed, txns[0].details).value);
      }
      TotalIsShares(cards, WalletStep(cards, w, txns[0]), txns[1..]);
    }
  }

  lemma {:induction false} ShareSumSingles(cards: seq<Entry>, all: seq<Entry>, txns: seq<Txn>)
    requires DistinctCards(all) && |cards| <= |all| && cards == all[..|cards|]
    ensures ShareSum(cards, WalletRun(all, Empty(), txns).byCard) == SingleSum(cards, txns)
  {
    if cards != [] {
      ShareSumSingles(cards[..|cards| - 1], all, txns);
      ShareIsSingleCard(all, |cards| - 1, txns);
    }
  }

  function SingleSum(cards: seq<Entry>, txns: seq<Txn>): real {
    if cards == [] then 0.0
    else
      var e := cards[|cards| - 1];
      SingleSum(cards[..|cards| - 1], txns) + SingleRun(e, Single(map[], 0.0), AssignedTo(txns, e.card)).total
  }

  /** A wallet's total is the sum over its cards of what each alone earns on its own spends. */
  lemma WalletDecomposes(cards: seq<Entry>, txns: seq<Txn>)
    requires DistinctCards(cards)
    ensures WalletRun(cards, Empty(), txns).total == SingleSum(cards, txns)
  {
    NoShares(cards);
    TotalIsShares(cards, Empty(), txns);
    assert cards[..|cards|] == cards;
    ShareSumSingles(cards, cards, txns);
  }

  lemma {:induction false} NoShares(cards: seq<Entry>)
    ensures ShareSum(cards, map[]) == 0.0
  {
    if cards != [] {
      NoShares(cards[..|cards| - 1]);
    }
  }

  // ---- the greedy month -----------------------------------------------------------------------------------

  function ValueOf(cards: seq<Entry>, consumed: map<(Id, Id), real>, details: nat, i: nat): real
    requires i < |cards|
  {
    Earned(cards[i], consumed, details).value
  }

  /** The first of the first `n` cards that none of them beats. */
  function BestOf(cards: seq<Entry>, consumed: map<(Id, Id), real>, details: nat, n: nat): (b: nat)
    requires 0 < n <= |cards|
    ensures b < n
  {
    if n == 1 then 0
    else
      var b := BestOf(cards, consumed, details, n - 1);
      if ValueOf(cards, consumed, details, n - 1) > ValueOf(cards, consumed, details, b) then n - 1 else b
  }

  /** The greedy choice earns at least what any other card would at that moment, and is the first
      in wallet order to do so. */
  lemma {:induction false} BestIsFirstBest(cards: seq<Entry>, consumed: map<(Id, Id), real>, details: nat, n: nat)
    requires 0 < n <= |cards|
    ensures var b := BestOf(cards, consumed, details, n);
      && (forall i :: 0 <= i < n ==> ValueOf(cards, consumed, details, i) <= ValueOf(cards, consumed, details, b))
      && (forall i :: 0 <= i < b ==> ValueOf(cards, consumed, details, i) < ValueOf(cards, consumed, details, b))
  {
    if n > 1 {
      BestIsFirstBest(cards, consumed, details, n - 1);
    }
  }

  datatype Choice = Choice(txn: Id, card: Id, value: real)

  datatype Greedy = Greedy(consumed: map<(Id, Id), real>, total: real, choices: seq<Choice>)

  function GreedyStep(cards: seq<Entry>, g: Greedy, t: Txn): Greedy {
    if cards == [] then g
    else
      var e := cards[BestOf(cards, g.consumed, t.details, |cards|)];
      var r := Earned(e, g.consumed, t.details);
      Greedy(Consume(e, g.consumed, t.details), g.total + r.value, g.choices + [Choice(t.id, e.card, r.value)])
  }

  function GreedyRun(cards: seq<Entry>, g: Greedy, txns: seq<Txn>): Greedy
    decreases |txns|
  {
    if txns == [] then g else GreedyRun(cards, GreedyStep(cards, g, txns[0]), txns[1..])
  }

  /** `evaluateOptimal`. */
  method EvaluateOptimal(cards: seq<Entry>, txns: seq<Txn>) returns (total: real, choices: seq<Choice>)
    ensures total == GreedyRun(cards, Greedy(map[], 0.0, []), txns).total
    ensures choices == GreedyRun(cards, Greedy(map[], 0.0, []), txns).choices
  {
    var consumed: map<(Id, Id), real>, i := map[], 0;
    total, choices := 0.0, [];
    while i < |txns|
      invariant 0 <= i <= |txns|
      invariant GreedyRun(cards, Greedy(consumed, total, choices), txns[i..])
                == GreedyRun(cards, Greedy(map[], 0.0, []), txns)
    {
      assert txns[i..][1..] == txns[i + 1..];
      var t := txns[i];
      ghost var g := Greedy(consumed, total, choices);
      i := i + 1;
      if |cards| == 0 {
        continue;
      }
      var best, n := 0, 1;
      var result := Earned(cards[0], consumed, t.details);
      while n < |cards|
        invariant 1 <= n <= |cards| && best == BestOf(cards, consumed, t.details, n)
        invariant result == Earned(cards[best], consumed, t.details)
      {
        var r := Earned(cards[n], consumed, t.details);
        if r.value > result.value {
          best, result := n, r;
        }
        n := n + 1;
      }
      var e := cards[best];
      var cap := e.cap(t.details);
      if cap.Some? && result.delta != 0.0 {
        consumed := consumed[(e.card, cap.value) := Before(e, consumed, t.details) + result.delta];
      }
      total := total + result.value;
      choices := choices + [Choice(t.id, e.card, result.value)];
      assert GreedyStep(cards, g, t) == Greedy(consumed, total, choices);
    }
    assert txns[|txns|..] == [];
  }

  /** The spends as the greedy month would have made them. */
  function Reassigned(cards: seq<Entry>, g: Greedy, txns: seq<Txn>): seq<Txn>
    requires cards != []
    decreases |txns|
  {
    if txns == [] then []
    else
      [txns[0].(card := cards[BestOf(cards, g.consumed, txns[0].details, |cards|)].card)]
      + Reassigned(cards, GreedyStep(cards, g, txns[0]), txns[1..])
  }

  /** Following every greedy choice earns a wallet exactly the greedy total. */
  lemma {:induction false} GreedyIsWallet(cards: seq<Entry>, g: Greedy, w: Wallet, txns: seq<Txn>)
    requires DistinctCards(cards) && cards != [] && w.consumed == g.consumed && w.total == g.total
    ensures WalletRun(cards, w, Reassigned(cards, g, txns)).total == GreedyRun(cards, g, txns).total
    decreases |txns|
  {
    if txns != [] {
      var b := BestOf(cards, g.consumed, txns[0].details, |cards|);
      var moved, rest := Reassigned(cards, g, txns), Reassigned(cards, GreedyStep(cards, g, txns[0]), txns[1..]);
      assert moved[1..] == rest;
      FindDistinct(cards, b);
      GreedyIsWallet(cards, GreedyStep(cards, g, txns[0]), WalletStep(cards, w, moved[0]), txns[1..]);
    }
  }

  lemma {:induction false} ChoicesAreMoves(cards: seq<Entry>, g: Greedy, txns: seq<Txn>)
    requires cards != []
    ensures var r, moved := GreedyRun(cards, g, txns), Reassigned(cards, g, txns);
      && |moved| == |txns| && |r.choices| == |g.choices| + |txns|
      && (forall i :: 0 <= i < |g.choices| ==> r.choices[i] == g.choices[i])
      && forall i :: 0 <= i < |txns| ==>
           moved[i] == txns[i].(card := r.choices[|g.choices| + i].card) && r.choices[|g.choices| + i].txn == txns[i].id
    decreases |txns|
  {
    if txns != [] {
      var n := GreedyStep(cards, g, txns[0]);
      ChoicesAreMoves(cards, n, txns[1..]);
      var r, moved := GreedyRun(cards, g, txns), Reassigned(cards, g, txns);
      assert r == GreedyRun(cards, n, txns[1..]);
      forall i | 0 <= i < |txns|
        ensures moved[i] == txns[i].(card := r.choices[|g.choices| + i].card) && r.choices[|g.choices| + i].txn
                == txns[i].id
      {
        if i == 0 {
          assert r.choices[|g.choices|] == n.choices[|g.choices|];
        } else {
          assert moved[i] == Reassigned(cards, n, txns[1..])[i - 1];
          assert txns[i] == txns[1..][i - 1];
          assert |n.choices| + (i - 1) == |g.choices| + i;
        }
      }
    }
  }

  // ---- when greedy is the best month ------------------------------------------------------------------------

  /** Consumption never adds to what a spend earns, and is never given back. */
  ghost predicate Diminishing(cards: seq<Entry>) {
    forall i, d, before :: 0 <= i < |cards| && before >= 0.0 ==>
      && cards[i].reward(d, before).value <= cards[i].reward(d, 0.0).value
      && cards[i].reward(d, before).delta >= 0.0
  }

  /** No card's earnings depend on what was consumed before. */
  ghost predicate Flat(cards: seq<Entry>) {
    forall i, d, before :: 0 <= i < |cards| ==> cards[i].reward(d, before).value == cards[i].reward(d, 0.0).value
  }

  predicate NothingNegative(consumed: map<(Id, Id), real>) {
    forall k :: k in consumed ==> consumed[k] >= 0.0
  }

  /** The most any card earns on the spend with no cap used. */
  function FullValue(cards: seq<Entry>, details: nat): real
    requires cards != []
  {
    ValueOf(cards, map[], details, BestOf(cards, map[], details, |cards|))
  }

  function FullTotal(cards: seq<Entry>, txns: seq<Txn>): real
    requires cards != []
  {
    if txns == [] then 0.0 else FullValue(cards, txns[0].details) + FullTotal(cards, txns[1..])
  }

  /** The same spends, each made with some card of the wallet. */
  predicate Reassigns(cards: seq<Entry>, txns: seq<Txn>, others: seq<Txn>) {
    && |others| == |txns|
    && forall i :: 0 <= i < |txns| ==> others[i].details == txns[i].details && Find(cards, others[i].card).Some?
  }

  lemma FullIsMost(cards: seq<Entry>, consumed: map<(Id, Id), real>, details: nat, i: nat)
    requires i < |cards| && ((Diminishing(cards) && NothingNegative(consumed)) || Flat(cards))
    ensures ValueOf(cards, consumed, details, i) <= FullValue(cards, details)
    ensures Flat(cards) ==> FullValue(cards, details) == ValueOf(cards, consumed, details,
                                                                 BestOf(cards, consumed, details, |cards|))
  {
    BestIsFirstBest(cards, map[], details, |cards|);
    BestIsFirstBest(cards, consumed, details, |cards|);
    var b := BestOf(cards, map[], details, |cards|);
    assert ValueOf(cards, map[], details, i) <= ValueOf(cards, map[], details, b);
    var c := BestOf(cards, consumed, details, |cards|);
    assert ValueOf(cards, consumed, details, b) <= ValueOf(cards, consumed, details, c);
    if Flat(cards) {
      assert Before(cards[b], map[], details) == 0.0 && Before(cards[c], map[], details) == 0.0;
      assert ValueOf(cards, consumed, details, c) == ValueOf(cards, map[], details, c);
      assert ValueOf(cards, consumed, details, b) == ValueOf(cards, map[], details, b);
    }
  }

  lemma StaysNonNegative(cards: seq<Entry>, consumed: map<(Id, Id), real>, details: nat, i: nat)
    requires i < |cards| && Diminishing(cards) && NothingNegative(consumed)
    ensures NothingNegative(Consume(cards[i], consumed, details))
  {
  }

  /** However the spends are made, they earn no more than each would with no cap used. */
  lemma {:induction false} WalletAtMostFull(cards: seq<Entry>, w: Wallet, txns: seq<Txn>, others: seq<Txn>)
    requires cards != [] && ((Diminishing(cards) && NothingNegative(w.consumed)) || Flat(cards))
             && Reassigns(cards, txns, others)
    ensures WalletRun(cards, w, others).total <= w.total + FullTotal(cards, txns)
    decreases |txns|
  {
    if txns != [] {
      hide Diminishing, Flat, NothingNegative, FullValue, Consume, Earned;
      var i := Find(cards, others[0].card).value;
      FullIsMost(cards, w.consumed, txns[0].details, i);
      if Diminishing(cards) && NothingNegative(w.consumed) {
        StaysNonNegative(cards, w.consumed, others[0].details, i);
      }
      WalletAtMostFull(cards, WalletStep(cards, w, others[0]), txns[1..], others[1..]);
    }
  }

  /** Every choice of the greedy month earns what it would with no cap used. */
  predicate NeverShort(cards: seq<Entry>, g: Greedy, txns: seq<Txn>)
    requires cards != []
    decreases |txns|
  {
    txns == [] || (
      && ValueOf(cards, g.consumed, txns[0].details, BestOf(cards, g.consumed, txns[0].details, |cards|))
         == FullValue(cards, txns[0].details)
      && NeverShort(cards, GreedyStep(cards, g, txns[0]), txns[1..]))
  }

  /** Greedy earns the most that uncapped cards could exactly when no choice of it is short. */
  lemma {:induction false} GreedyFullIff(cards: seq<Entry>, g: Greedy, txns: seq<Txn>)
    requires cards != [] && ((Diminishing(cards) && NothingNegative(g.consumed)) || Flat(cards))
    ensures GreedyRun(cards, g, txns).total <= g.total + FullTotal(cards, txns)
    ensures GreedyRun(cards, g, txns).total == g.total + FullTotal(cards, txns) <==> NeverShort(cards, g, txns)
    decreases |txns|
  {
    if txns != [] {
      hide Diminishing, Flat, NothingNegative, FullValue, Consume, Earned;
      var b := BestOf(cards, g.consumed, txns[0].details, |cards|);
      FullIsMost(cards, g.consumed, txns[0].details, b);
      if Diminishing(cards) && NothingNegative(g.consumed) {
        StaysNonNegative(cards, g.consumed, txns[0].details, b);
      }
      GreedyFullIff(cards, GreedyStep(cards, g, txns[0]), txns[1..]);
    }
  }

  lemma {:induction false} FlatNeverShort(cards: seq<Entry>, g: Greedy, txns: seq<Txn>)
    requires cards != [] && Flat(cards)
    ensures NeverShort(cards, g, txns)
    decreases |txns|
  {
    if txns != [] {
      FullIsMost(cards, g.consumed, txns[0].details, 0);
      FlatNeverShort(cards, GreedyStep(cards, g, txns[0]), txns[1..]);
    }
  }

  /** A greedy month whose choices never fall short of a cap is the best month: no other way of
      making the same spends earns more. */
  lemma GreedyIsBest(cards: seq<Entry>, txns: seq<Txn>, others: seq<Txn>)
    requires cards != [] && Diminishing(cards) && Reassigns(cards, txns, others)
    requires NeverShort(cards, Greedy(map[], 0.0, []), txns)
    ensures WalletRun(cards, Empty(), others).total <= GreedyRun(cards, Greedy(map[], 0.0, []), txns).total
  {
    WalletAtMostFull(cards, Empty(), txns, others);
    GreedyFullIff(cards, Greedy(map[], 0.0, []), txns);
  }

  /** So is every greedy month when no card's earnings depend on what was consumed before. */
  lemma FlatGreedyIsBest(cards: seq<Entry>, txns: seq<Txn>, others: seq<Txn>)
    requires cards != [] && Flat(cards) && Reassigns(cards, txns, others)
    ensures WalletRun(cards, Empty(), others).total <= GreedyRun(cards, Greedy(map[], 0.0, []), txns).total
  {
    WalletAtMostFull(cards, Empty(), txns, others);
    FlatNeverShort(cards, Greedy(map[], 0.0, []), txns);
    GreedyFullIff(cards, Greedy(map[], 0.0, []), txns);
  }

  // ---- room under the caps ------------------------------------------------------------------------------------

  /** A cap of `limit` leaves a spend whole while what it earns uncapped still fits under it. */
  ghost predicate Roomy(cards: seq<Entry>, limit: (Id, Id) -> real) {
    forall i, d, before :: 0 <= i < |cards| && cards[i].cap(d).Some? && before >= 0.0 ==>
      before + cards[i].reward(d, 0.0).delta <= limit(cards[i].card, cards[i].cap(d).value) ==>
        cards[i].reward(d, before) == cards[i].reward(d, 0.0)
  }

  /** What all the spends would consume of one cap if each were made with its card, uncapped. */
  function CapDemand(e: Entry, cap: Id, txns: seq<Txn>): real {
    if txns == [] then 0.0
    else (if e.cap(txns[0].details) == Some(cap) then e.reward(txns[0].details, 0.0).delta else 0.0)
         + CapDemand(e, cap, txns[1..])
  }

  /** Every cap can hold the uncapped consumption of all the spends, on top of what is consumed. */
  ghost predicate Fits(cards: seq<Entry>, limit: (Id, Id) -> real, consumed: map<(Id, Id), real>, txns: seq<Txn>) {
    forall i, cap :: 0 <= i < |cards| ==>
      Get(consumed, (cards[i].card, cap)) + CapDemand(cards[i], cap, txns) <= limit(cards[i].card, cap)
  }

  lemma {:induction false} DemandNonNegative(cards: seq<Entry>, i: nat, cap: Id, txns: seq<Txn>)
    requires i < |cards| && Diminishing(cards)
    ensures CapDemand(cards[i], cap, txns) >= 0.0
    decreases |txns|
  {
    if txns != [] {
      DemandNonNegative(cards, i, cap, txns[1..]);
      assert cards[i].reward(txns[0].details, 0.0).delta >= 0.0;
    }
  }

  /** A spend that fits earns in full on any card. */
  lemma RoomIsFull(cards: seq<Entry>, limit: (Id, Id) -> real, consumed: map<(Id, Id), real>, txns: seq<Txn>, i: nat)
    requires i < |cards| && txns != [] && Diminishing(cards) && Roomy(cards, limit) && NothingNegative(consumed)
    requires Fits(cards, limit, consumed, txns)
    ensures Earned(cards[i], consumed, txns[0].details) == cards[i].reward(txns[0].details, 0.0)
  {
    var d := txns[0].details;
    if cards[i].cap(d).Some? {
      var cap := cards[i].cap(d).value;
      DemandNonNegative(cards, i, cap, txns[1..]);
      assert Get(consumed, (cards[i].card, cap)) + CapDemand(cards[i], cap, txns) <= limit(cards[i].card, cap);
      assert CapDemand(cards[i], cap, txns) == cards[i].reward(d, 0.0).delta + CapDemand(cards[i], cap, txns[1..]);
    }
  }

  lemma FitsStep(cards: seq<Entry>, limit: (Id, Id) -> real, consumed: map<(Id, Id), real>, txns: seq<Txn>, b: nat)
    requires b < |cards| && txns != [] && DistinctCards(cards) && Diminishing(cards) && Roomy(cards, limit)
    requires NothingNegative(consumed) && Fits(cards, limit, consumed, txns)
    ensures Fits(cards, limit, Consume(cards[b], consumed, txns[0].details), txns[1..])
  {
    var d := txns[0].details;
    RoomIsFull(cards, limit, consumed, txns, b);
    var after := Consume(cards[b], consumed, d);
    forall i, cap | 0 <= i < |cards|
      ensures Get(after, (cards[i].card, cap)) + CapDemand(cards[i], cap, txns[1..]) <= limit(cards[i].card, cap)
    {
      assert Get(consumed, (cards[i].card, cap)) + CapDemand(cards[i], cap, txns) <= limit(cards[i].card, cap);
      assert cards[i].reward(d, 0.0).delta >= 0.0;
      assert i != b ==> cards[i].card != cards[b].card;
    }
  }

  /** With room for everything, no greedy choice falls short. */
  lemma {:induction false} RoomNeverShort(cards: seq<Entry>, limit: (Id, Id) -> real, g: Greedy, txns: seq<Txn>)
    requires cards != [] && DistinctCards(cards) && Diminishing(cards) && Roomy(cards, limit)
    requires NothingNegative(g.consumed) && Fits(cards, limit, g.consumed, txns)
    ensures NeverShort(cards, g, txns)
    decreases |txns|
  {
    if txns != [] {
      var d := txns[0].details;
      var b, full := BestOf(cards, g.consumed, d, |cards|), BestOf(cards, map[], d, |cards|);
      FullIsMost(cards, g.consumed, d, b);
      BestIsFirstBest(cards, g.consumed, d, |cards|);
      RoomIsFull(cards, limit, g.consumed, txns, full);
      assert ValueOf(cards, map[], d, full) == ValueOf(cards, g.consumed, d, full) <= ValueOf(cards, g.consumed, d, b);
      StaysNonNegative(cards, g.consumed, d, b);
      FitsStep(cards, limit, g.consumed, txns, b);
      hide Diminishing, Roomy, Fits, NothingNegative;
      RoomNeverShort(cards, limit, GreedyStep(cards, g, txns[0]), txns[1..]);
    }
  }

  /** So greedy is the best month whenever each cap is at least what all the month's spends would
      consume of it. */
  lemma RoomyGreedyIsBest(cards: seq<Entry>, limit: (Id, Id) -> real, txns: seq<Txn>, others: seq<Txn>)
    requires cards != [] && DistinctCards(cards) && Diminishing(cards) && Roomy(cards, limit)
    requires forall i, cap :: 0 <= i < |cards| ==> CapDemand(cards[i], cap, txns) <= limit(cards[i].card, cap)
    requires Reassigns(cards, txns, others)
    ensures WalletRun(cards, Empty(), others).total <= GreedyRun(cards, Greedy(map[], 0.0, []), txns).total
    ensures GreedyRun(cards, Greedy(map[], 0.0, []), txns).total == FullTotal(cards, txns)
  {
    RoomNeverShort(cards, limit, Greedy(map[], 0.0, []), txns);
    GreedyIsBest(cards, txns, others);
    GreedyFullIff(cards, Greedy(map[], 0.0, []), txns);
  }

  /** Ten per cent cashback, up to 100 rupees: `details` is the amount in rupees. */
  function CappedTenPercent(amount: nat, before: real): Reward {
    var left := if before >= 100.0 then 0.0 else 100.0 - before;
    var earned := amount as real / 10.0;
    var paid := if earned <= left then earned else left;
    Reward(paid, paid)
  }

  /** That card, and one with nine per cent on everything. */
  function TwoCards(): seq<Entry> {
    [Entry(1, (d: nat) => Some(7), (d: nat, before: real) => CappedTenPercent(d, before)),
     Entry(2, (d: nat) => None, (d: nat, before: real) => Reward(9.0 * d as real / 100.0, 0.0))]
  }

  function Amount(txns: seq<Txn>): nat {
    if txns == [] then 0 else txns[0].details + Amount(txns[1..])
  }

  lemma {:induction false} TwoCardsDemand(txns: seq<Txn>, cap: Id)
    ensures CapDemand(TwoCards()[0], cap, txns) <= Amount(txns) as real / 10.0
    ensures CapDemand(TwoCards()[1], cap, txns) == 0.0
    decreases |txns|
  {
    if txns != [] {
      TwoCardsDemand(txns[1..], cap);
    }
  }

  /** With those cards greedy is the best month for spends of up to 1000 rupees in all. */
  lemma TwoCardsBest(txns: seq<Txn>, others: seq<Txn>)
    requires Amount(txns) <= 1000 && Reassigns(TwoCards(), txns, others)
    ensures WalletRun(TwoCards(), Empty(), others).total <= GreedyRun(TwoCards(), Greedy(map[], 0.0, []), txns).total
  {
    var cards, limit := TwoCards(), (card: Id, cap: Id) => 100.0;
    assert Diminishing(cards) && Roomy(cards, limit);
    forall i, cap | 0 <= i < |cards|
      ensures CapDemand(cards[i], cap, txns) <= limit(cards[i].card, cap)
    {
      TwoCardsDemand(txns, cap);
    }
    hide TwoCards, Diminishing, Roomy;
    RoomyGreedyIsBest(cards, limit, txns, others);
  }

  lemma GreedyMonth()
    ensures var txns := [Txn(1, 1, 100), Txn(2, 1, 1000)];
      GreedyRun(TwoCards(), Greedy(map[], 0.0, []), txns).total == 100.0
  {
    var cards, small, large := TwoCards(), Txn(1, 1, 100), Txn(2, 1, 1000);
    assert [small, large][1..] == [large] && [large][1..] == [];
    var g1 := GreedyStep(cards, Greedy(map[], 0.0, []), small);
    assert g1.consumed == map[(1, 7) := 10.0] && g1.total == 10.0;
    var g2 := GreedyStep(cards, g1, large);
    assert g2.total == 100.0;
    assert GreedyRun(cards, Greedy(map[], 0.0, []), [small, large]) == GreedyRun(cards, g2, []);
  }

  lemma KeptMonth()
    ensures var others := [Txn(1, 2, 100), Txn(2, 1, 1000)];
      && Find(TwoCards(), 1) == Some(0) && Find(TwoCards(), 2) == Some(1)
      && WalletRun(TwoCards(), Empty(), others).total == 109.0
  {
    var cards, moved, large := TwoCards(), Txn(1, 2, 100), Txn(2, 1, 1000);
    assert cards[1..] == [cards[1]];
    assert Find(cards, 1) == Some(0) && Find(cards, 2) == Some(1);
    assert [moved, large][1..] == [large] && [large][1..] == [];
    var w1 := WalletStep(cards, Empty(), moved);
    assert w1.total == 9.0 && w1.consumed == map[];
    var w2 := WalletStep(cards, w1, large);
    assert w2.total == 109.0;
    assert WalletRun(cards, Empty(), [moved, large]) == WalletRun(cards, w2, []);
  }

  /** Beyond that another month can earn more: a spend of 100 rupees on the capped card leaves a
      later one of 1000 with only 90 of the cap, where keeping the cap for it earns 9 more. */
  lemma GreedyCanLose()
    ensures var cards, txns, others := TwoCards(), [Txn(1, 1, 100), Txn(2, 1, 1000)], [Txn(1, 2, 100), Txn(2, 1, 1000)];
      && DistinctCards(cards) && Diminishing(cards) && Reassigns(cards, txns, others)
      && GreedyRun(cards, Greedy(map[], 0.0, []), txns).total == 100.0
      && WalletRun(cards, Empty(), others).total == 109.0
  {
    hide GreedyRun, WalletRun, Find;
    GreedyMonth();
    KeptMonth();
  }

  // ---- the baseline -----------------------------------------------------------------------------------------

  /** The report's baseline: the first card that alone earns the most on the whole month. */
  method Baseline(cards: seq<Entry>, txns: seq<Txn>) returns (baseline: real, card: Option<Id>)
    ensures cards == [] ==> baseline == 0.0 && card == None
    ensures cards != [] ==>
              exists b :: 0 <= b < |cards| && card == Some(cards[b].card)
                && baseline == SingleRun(cards[b], Single(map[], 0.0), txns).total
                && (forall i :: 0 <= i < |cards| ==> SingleRun(cards[i], Single(map[], 0.0), txns).total <= baseline)
                && (forall i :: 0 <= i < b ==> SingleRun(cards[i], Single(map[], 0.0), txns).total < baseline)
  {
    baseline, card := 0.0, None;
    var n := 0;
    ghost var b := 0;
    while n < |cards|
      invariant 0 <= n <= |cards|
      invariant n == 0 ==> baseline == 0.0 && card == None
      invariant n > 0 ==> b < n && card == Some(cards[b].card)
      invariant n > 0 ==> baseline == SingleRun(cards[b], Single(map[], 0.0), txns).total
      invariant n > 0 ==> forall i :: 0 <= i < n ==> SingleRun(cards[i], Single(map[], 0.0), txns).total <= baseline
      invariant n > 0 ==> forall i :: 0 <= i < b ==> SingleRun(cards[i], Single(map[], 0.0), txns).total < baseline
    {
      var value := EvaluateSingleCard(cards[n], txns);
      if card.None? || value > baseline {
        baseline, card := value, Some(cards[n].card);
        b := n;
      }
      n := n + 1;
    }
  }
}
