/** Gas accounting of a message, a transaction and a block. */
module GasAccounting {
  import opened Transactions
  import opened Wrappers

  const MAX_UINT64: nat := 0xFFFF_FFFF_FFFF_FFFF
  const TX_GAS: nat := 21000
  const TX_GAS_CONTRACT_CREATION: nat := 53000
  const TX_DATA_ZERO_GAS: nat := 4
  const TX_DATA_NON_ZERO_GAS: nat := 68

  /** The price of one byte of call data. */
  function ByteGas(b: Byte): nat {
    if b == 0 then TX_DATA_ZERO_GAS else TX_DATA_NON_ZERO_GAS
  }

  function DataGas(data: seq<Byte>): nat {
    if data == [] then 0 else DataGas(data[..|data| - 1]) + ByteGas(data[|data| - 1])
  }

  /** The exact intrinsic gas of a message: a base price and a price for each data byte. */
  function IntrinsicCost(data: seq<Byte>, creation: bool, homestead: bool): nat {
    (if creation && homestead then TX_GAS_CONTRACT_CREATION else TX_GAS) + DataGas(data)
  }

  /** The places of the bytes that are not zero. */
  function NonZero(data: seq<Byte>): set<nat> {
    set i: nat | i < |data| && data[i] != 0
  }

  /** The cost in numbers: 53000 for a contract creation since Homestead and 21000 for anything
      else, 68 for each byte that is not zero and 4 for each that is. */
  lemma {:induction false} CostInNumbers(data: seq<Byte>, creation: bool, homestead: bool)
    ensures |NonZero(data)| <= |data|
    ensures IntrinsicCost(data, creation, homestead)
            == (if creation && homestead then 53000 else 21000) + 68 * |NonZero(data)| + 4 * (|data| - |NonZero(data)|)
    decreases data
  {
    if data == [] {
      assert NonZero(data) == {};
    } else {
      var n := |data| - 1;
      CostInNumbers(data[..n], creation, homestead);
      assert NonZero(data) == NonZero(data[..n]) + if data[n] != 0 then {n} else {};
    }
  }

  /** IntrinsicGas: the exact cost, or an error just when it does not fit a uint64. */
  method IntrinsicGas(data: seq<Byte>, creation: bool, homestead: bool) returns (r: Option<nat>)
    ensures var cost := IntrinsicCost(data, creation, homestead);
            r == if cost <= MAX_UINT64 then Some(cost) else None
  {
    var gas := if creation && homestead then TX_GAS_CONTRACT_CREATION else TX_GAS;
    if |data| > 0 {
      var nz := 0;
      for i := 0 to |data|
        invariant 0 <= nz <= i
        invariant DataGas(data[..i]) == nz * TX_DATA_NON_ZERO_GAS + (i - nz) * TX_DATA_ZERO_GAS
      {
        assert data[..i + 1][..i] == data[..i];
        if data[i] != 0 {
          nz := nz + 1;
        }
      }
      assert data[..|data|] == data;
      if (MAX_UINT64 - gas) / TX_DATA_NON_ZERO_GAS < nz {
        return None;
      }
      gas := gas + nz * TX_DATA_NON_ZERO_GAS;
      var z := |data| - nz;
      if (MAX_UINT64 - gas) / TX_DATA_ZERO_GAS < z {
        return None;
      }
      gas := gas + z * TX_DATA_ZERO_GAS;
    }
    r := Some(gas);
  }
}
