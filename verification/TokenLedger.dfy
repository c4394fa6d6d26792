/** The token contracts a bounty can be paid in, reduced to what the bounty
    contract relies on: balances per token and account, and a transfer that
    moves an amount or fails. */
module TokenLedger {

  datatype Address = Address(code: nat)

  type Accounts = map<Address, int>
  type Ledger = map<Address, Accounts>

  function AccountsOf(ledger: Ledger, token: Address): Accounts {
    if token in ledger then ledger[token] else map[]
  }

  function Held(accounts: Accounts, account: Address): int {
    if account in accounts then accounts[account] else 0
  }

  function Balance(ledger: Ledger, token: Address, account: Address): int {
    Held(AccountsOf(ledger, token), account)
  }

  function Credit(ledger: Ledger, token: Address, account: Address, amount: int): Ledger {
    var accounts := AccountsOf(ledger, token);
    ledger[token := accounts[account := Held(accounts, account) + amount]]
  }

  /** Moves the amount whatever the payer holds. */
  function Move(ledger: Ledger, token: Address, from: Address, to: Address, amount: int): Ledger {
    Credit(Credit(ledger, token, from, -amount), token, to, amount)
  }

  /** A transfer the token accepts: not negative, and the payer holds it. */
  predicate CanTransfer(ledger: Ledger, token: Address, from: Address, amount: int) {
    0 <= amount <= Balance(ledger, token, from)
  }

  ghost predicate NoDebts(ledger: Ledger) {
    forall token, account :: Balance(ledger, token, account) >= 0
  }

  /** The sum of everything held in one token. */
  ghost function Supply(accounts: Accounts): int {
    if accounts == map[] then 0
    else
      var account :| account in accounts;
      accounts[account] + Supply(accounts - {account})
  }

  lemma {:induction false} SupplyWithout(accounts: Accounts, account: Address)
    requires account in accounts
    ensures Supply(accounts) == accounts[account] + Supply(accounts - {account})
    decreases |accounts|
  {
    var chosen :| chosen in accounts && Supply(accounts) == accounts[chosen] + Supply(accounts - {chosen});
    if chosen != account {
      SupplyWithout(accounts - {chosen}, account);
      SupplyWithout(accounts - {account}, chosen);
      assert accounts - {chosen} - {account} == accounts - {account} - {chosen};
    }
  }

  lemma {:induction false} SupplyAfterSet(accounts: Accounts, account: Address, amount: int)
    ensures Supply(accounts[account := amount]) == Supply(accounts) - Held(accounts, account) + amount
  {
    var updated := accounts[account := amount];
    SupplyWithout(updated, account);
    if account in accounts {
      SupplyWithout(accounts, account);
      assert updated - {account} == accounts - {account};
    } else {
      assert updated - {account} == accounts;
    }
  }

  /** Moving tokens creates and destroys none, in any token. */
  lemma {:induction false} MoveKeepsSupply(ledger: Ledger, token: Address, from: Address, to: Address, amount: int,
        other: Address)
    ensures Supply(AccountsOf(Move(ledger, token, from, to, amount), other)) == Supply(AccountsOf(ledger, other))
  {
    var paid := Credit(ledger, token, from, -amount);
    SupplyAfterSet(AccountsOf(ledger, token), from, Balance(ledger, token, from) - amount);
    SupplyAfterSet(AccountsOf(paid, token), to, Balance(paid, token, to) + amount);
  }

  lemma {:induction false} MoveBalances(ledger: Ledger, token: Address, from: Address, to: Address, amount: int)
    ensures forall k, a ::
      Balance(Move(ledger, token, from, to, amount), k, a)
      == Balance(ledger, k, a)
         + (if k == token && a == to then amount else 0)
         - (if k == token && a == from then amount else 0)
  {
  }
}
