/**
 The fuzzer's own account of the token (fuzz.rs, `ContractState`): plain maps, no lifetimes, no
 expirations. The checked arithmetic and the assertions of its methods are preconditions here, so
 that each use of a method proves that they cannot fire.
 */
module Mirror {
  import opened Prelude
  import opened Token

  function Granted(allowances: map<AllowanceKey, int>, k: AllowanceKey): int {
    if k in allowances then allowances[k] else 0
  }

  /** All that the mirror says at one moment. */
  datatype MirrorState = MirrorState(
    metadata: Metadata,
    balances: map<Address, int>,
    allowances: map<AllowanceKey, int>,
    sumOfMints: int,
    sumOfBurns: int)

  class ContractState {
    // Read from the contract once, before the first transaction; never to change.
    const name: string
    const symbol: string
    const decimals: nat

    var balances: map<Address, int>
    var allowances: map<AllowanceKey, int>
    var sumOfMints: int
    var sumOfBurns: int

    constructor (metadata: Metadata)
      ensures name == metadata.name && symbol == metadata.symbol && decimals == metadata.decimal
      ensures balances == map[] && allowances == map[] && sumOfMints == 0 && sumOfBurns == 0
    {
      name, symbol, decimals := metadata.name, metadata.symbol, metadata.decimal;
      balances, allowances := map[], map[];
      sumOfMints, sumOfBurns := 0, 0;
    }

    function State(): MirrorState
      reads this
    {
      MirrorState(Metadata(decimals, name, symbol), balances, allowances, sumOfMints, sumOfBurns)
    }

    function GetBalance(addr: Address): int
      reads this
    {
      Balance(balances, addr)
    }

    function GetAllowance(from: Address, spender: Address): int
      reads this
    {
      Granted(allowances, AllowanceKey(from, spender))
    }

    method SubBalance(addr: Address, amount: int)
      requires FitsI128(GetBalance(addr) - amount) && GetBalance(addr) - amount >= 0
      modifies this`balances
      ensures balances == old(balances)[addr := old(GetBalance(addr)) - amount]
    {
      balances := balances[addr := GetBalance(addr) - amount];
    }

    method AddBalance(addr: Address, amount: int)
      requires FitsI128(GetBalance(addr) + amount) && GetBalance(addr) + amount >= 0
      modifies this`balances
      ensures balances == old(balances)[addr := old(GetBalance(addr)) + amount]
    {
      balances := balances[addr := GetBalance(addr) + amount];
    }

    method SetAllowance(from: Address, spender: Address, amount: int)
      requires amount >= 0
      modifies this`allowances
      ensures allowances == old(allowances)[AllowanceKey(from, spender) := amount]
    {
      allowances := allowances[AllowanceKey(from, spender) := amount];
    }

    method SubAllowance(from: Address, spender: Address, amount: int)
      requires FitsI128(GetAllowance(from, spender) - amount) && GetAllowance(from, spender) - amount >= 0
      modifies this`allowances
      ensures allowances == old(allowances)[AllowanceKey(from, spender) := old(GetAllowance(from, spender)) - amount]
    {
      var newAllowance := GetAllowance(from, spender) - amount;
      SetAllowance(from, spender, newAllowance);
    }
  }
}
