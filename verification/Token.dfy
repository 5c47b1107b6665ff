/**
 The token contract the facilitator settles against: balances and a set of used
 (authorizer, nonce) pairs, after the Specification section of EIP-3009.
 Signature checking is left to the caller, so more executions are admitted here
 than on chain.
 */
module Token {

  datatype Authorization = Authorization(from: nat, to: nat, value: nat, validAfter: nat, validBefore: nat, nonce: nat)

  datatype Ledger = Ledger(balances: map<nat, nat>, used: set<(nat, nat)>)

  function Balance(balances: map<nat, nat>, account: nat): nat {
    if account in balances then balances[account] else 0
  }

  function Move(balances: map<nat, nat>, from: nat, to: nat, value: nat): map<nat, nat>
    requires value <= Balance(balances, from)
  {
    var debited := balances[from := Balance(balances, from) - value];
    debited[to := Balance(debited, to) + value]
  }

  /** What the contract marks as used: nonces are per authorizer. */
  function UsedPair(a: Authorization): (nat, nat) {
    (a.from, a.nonce)
  }

  predicate Admissible(l: Ledger, a: Authorization, now: nat) {
    && a.validAfter < now < a.validBefore
    && UsedPair(a) !in l.used
    && a.value <= Balance(l.balances, a.from)
  }

  function Execute(l: Ledger, a: Authorization, now: nat): Ledger
    requires Admissible(l, a, now)
  {
    Ledger(Move(l.balances, a.from, a.to, a.value), l.used + {UsedPair(a)})
  }

  ghost function Total(balances: map<nat, nat>): nat {
    if balances == map[] then 0
    else
      var account :| account in balances;
      balances[account] + Total(balances - {account})
  }

  lemma {:induction false} TotalSplit(balances: map<nat, nat>, account: nat)
    requires account in balances
    ensures Total(balances) == balances[account] + Total(balances - {account})
    decreases |balances|
  {
    var chosen :| chosen in balances && Total(balances) == balances[chosen] + Total(balances - {chosen});
    if chosen != account {
      TotalSplit(balances - {chosen}, account);
      TotalSplit(balances - {account}, chosen);
      assert balances - {chosen} - {account} == balances - {account} - {chosen};
    }
  }

  lemma TotalUpdate(balances: map<nat, nat>, account: nat, amount: nat)
    ensures Total(balances[account := amount]) == Total(balances) - Balance(balances, account) + amount
  {
    var updated := balances[account := amount];
    TotalSplit(updated, account);
    assert updated - {account} == balances - {account};
    if account in balances {
      TotalSplit(balances, account);
    } else {
      assert balances - {account} == balances;
    }
  }

  /** A transfer, to anyone including oneself, conserves the total balance and
      moves exactly the amount. */
  lemma MoveConserves(balances: map<nat, nat>, from: nat, to: nat, value: nat)
    requires value <= Balance(balances, from)
    ensures var after := Move(balances, from, to, value);
      && Total(after) == Total(balances)
      && (from == to ==> Balance(after, from) == Balance(balances, from))
      && (from != to ==> Balance(after, from) == Balance(balances, from) - value
                         && Balance(after, to) == Balance(balances, to) + value)
      && forall other :: other != from && other != to ==> Balance(after, other) == Balance(balances, other)
  {
    var debited := balances[from := Balance(balances, from) - value];
    TotalUpdate(balances, from, Balance(balances, from) - value);
    TotalUpdate(debited, to, Balance(debited, to) + value);
  }
}
