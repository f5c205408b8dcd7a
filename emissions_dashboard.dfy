/** The index page of the emissions dashboard: the selected date window and the
    window it is compared with, the two fetched transaction lists, the ready state
    the charts show, and the contract registry kept in the browser's local storage. */
module EmissionsDashboard {
  import opened Wrappers
  import opened Seqs

  datatype Contract = Contract(name: string, address: string)

  /** A fetched transaction after `gasUsed` and `gasPrice` were converted to numbers. */
  datatype Transaction = Transaction(to: string, gasUsed: int, gasPrice: int)

  /** Which of spinner, chart or error message the charts show. */
  datatype ChartReadyState = Loading | Done | Error

  /** The contracts the page shows before anything else is chosen. */
  const DefaultContracts: seq<Contract> := [
    Contract("POP", "0xd0cd466b34a24fcb2f87676278af2005ca8a78c4"),
    Contract("yvCurve-USDN", "0x3b96d491f067912d18563d56858ba7d6ec67a6fa"),
    Contract("yvCurve-DUSD", "0x30fcf7c6cdfc46ec237783d94fc78553e79d4e9c"),
    Contract("yvCurve-FRAX", "0xb4ada607b9d6b2c9ee07a275e9616b84ac560139"),
    Contract("yvCurve-UST", "0x1c6a9783f812b3af3abbf7de64c3cd7cc7d1af44")
  ]

  /** The default contracts have pairwise distinct addresses. */
  lemma DefaultContractsUnique()
    ensures UniqueAddresses(DefaultContracts)
  {
  }

  // ----- Date windows (instants are milliseconds since the epoch) -----

  /** The comparison window [previousPeriodStart, start) and the selected window [start, end). */
  datatype DateWindow = DateWindow(previousPeriodStart: int, start: int, end: int)

  /** The windows `updateDates` sets up for a selected start and end. */
  function ComparisonWindow(start: int, end: int): (w: DateWindow)
    ensures w.start == start && w.end == end
    ensures w.start - w.previousPeriodStart == w.end - w.start
  {
    DateWindow(start - (end - start), start, end)
  }

  /** February 2024 has 29 days, so the window compared with February 2024 starts on
      3 January 2024, not on 1 January. */
  lemma ComparisonWindowFebruary2024()
    ensures var jan1, jan3, feb1, mar1 := 1704067200000, 1704240000000, 1706745600000, 1709251200000;
            ComparisonWindow(feb1, mar1).previousPeriodStart == jan3 != jan1
  {
  }

  // ----- Validation of a contract to add -----

  const NameBlankMessage := "The contract name cannot be blank"
  const AddressBlankMessage := "The contract address cannot be blank"
  const InvalidAddressMessage := "The contract address is not a valid Ethereum address"
  const NotAContractMessage := "The address does not point to a valid Ethereum contract"

  /** `getCode` returned bytecode, i.e. neither `0x` nor `0x0`. */
  predicate IsConnected(code: string)
  {
    !(code == "0x0" || code == "0x")
  }

  /** The contract passes all four checks. `isAddress` is what `web3.utils.isAddress`
      says of the address and `code` what `getCode` returns for it. */
  predicate Acceptable(contract: Contract, isAddress: bool, code: string)
  {
    contract.name != "" && contract.address != "" && isAddress && IsConnected(code)
  }

  /** The first three checks passed, so `getCode` was awaited, and the call rejected
      (`code` is None: a failed RPC call, or no provider). */
  predicate GetCodeRejected(contract: Contract, isAddress: bool, code: Option<string>)
  {
    contract.name != "" && contract.address != "" && isAddress && code.None?
  }

  /** The message `addContract` reports; None (the message left unset) on success. */
  function Validate(contract: Contract, isAddress: bool, code: string): (message: Option<string>)
    ensures message.None? <==> Acceptable(contract, isAddress, code)
    ensures message.Some? ==>
              message.value != "" &&
              message.value in {NameBlankMessage, AddressBlankMessage, InvalidAddressMessage, NotAContractMessage}
  {
    if contract.name == "" then Some(NameBlankMessage)
    else if contract.address == "" then Some(AddressBlankMessage)
    else if !isAddress then Some(InvalidAddressMessage)
    else if !IsConnected(code) then Some(NotAContractMessage)
    else None
  }

  /** One check: whether it passed and the message reported when it did not. */
  datatype Check = Check(passed: bool, message: string)

  /** The four checks in the order they are made. */
  function Checks(contract: Contract, isAddress: bool, code: string): (checks: seq<Check>)
  {
    [Check(contract.name != "", NameBlankMessage),
     Check(contract.address != "", AddressBlankMessage),
     Check(isAddress, InvalidAddressMessage),
     Check(IsConnected(code), NotAContractMessage)]
  }

  /** The message of the first check in `checks` that failed. */
  function FirstFailure(checks: seq<Check>): (message: Option<string>)
    ensures message.None? <==> forall i :: 0 <= i < |checks| ==> checks[i].passed
  {
    if checks == [] then None
    else if !checks[0].passed then Some(checks[0].message)
    else FirstFailure(checks[1..])
  }

  /** Validation short-circuits: it reports the first failed check of the fixed order,
      and later checks (the address syntax, the bytecode) do not matter once one failed. */
  lemma ValidateReportsFirstFailure(contract: Contract, isAddress: bool, code: string)
    ensures Validate(contract, isAddress, code) == FirstFailure(Checks(contract, isAddress, code))
  {
    var cs := Checks(contract, isAddress, code);
    var c1, c2, c3 := cs[1..], cs[2..], cs[3..];
    assert c1[1..] == c2 && c2[1..] == c3 && c3[1..] == [];
    assert FirstFailure(c3) == if IsConnected(code) then None else Some(NotAContractMessage);
    assert FirstFailure(c2) == if isAddress then FirstFailure(c3) else Some(InvalidAddressMessage);
    assert FirstFailure(c1) == if contract.address != "" then FirstFailure(c2) else Some(AddressBlankMessage);
  }

  // ----- The stored contract list -----

  function Addresses(contracts: seq<Contract>): (addresses: seq<string>)
    ensures |addresses| == |contracts|
    ensures forall i :: 0 <= i < |contracts| ==> addresses[i] == contracts[i].address
  {
    if contracts == [] then [] else [contracts[0].address] + Addresses(contracts[1..])
  }

  predicate UniqueAddresses(contracts: seq<Contract>)
  {
    forall i, j :: 0 <= i < j < |contracts| ==> contracts[i].address != contracts[j].address
  }

  /** The stored list after `contract` passed validation; `stored` is None when
      local storage has no `contracts` entry. */
  function Registered(stored: Option<seq<Contract>>, contract: Contract): (list: seq<Contract>)
    ensures contract.address in Addresses(list)
    ensures stored.None? ==> list == [contract]
    ensures stored.Some? ==> stored.value <= list && |list| <= |stored.value| + 1
  {
    match stored
    case None => [contract]
    case Some(existing) =>
      if contract.address in Addresses(existing) then existing
      else
        var list := existing + [contract];
        assert Addresses(list)[|existing|] == contract.address;
        list
  }

  /** An address already stored is not stored again: the list stays as it was. */
  lemma RegisteredNoDuplicate(existing: seq<Contract>, contract: Contract, i: nat)
    requires i < |existing| && existing[i].address == contract.address
    ensures Registered(Some(existing), contract) == existing
  {
    assert Addresses(existing)[i] == contract.address;
  }

  /** A new address is appended at the end. */
  lemma RegisteredAppends(existing: seq<Contract>, contract: Contract)
    requires forall i :: 0 <= i < |existing| ==> existing[i].address != contract.address
    ensures Registered(Some(existing), contract) == existing + [contract]
  {
    var addresses := Addresses(existing);
    forall k | 0 <= k < |addresses| ensures addresses[k] != contract.address {
      assert addresses[k] == existing[k].address;
    }
  }

  /** Registering keeps the stored addresses unique. */
  lemma RegisteredKeepsUnique(stored: Option<seq<Contract>>, contract: Contract)
    requires UniqueAddresses(stored.GetOr([]))
    ensures UniqueAddresses(Registered(stored, contract))
  {
    if stored.Some? {
      var existing := stored.value;
      if contract.address !in Addresses(existing) {
        forall i | 0 <= i < |existing| ensures existing[i].address != contract.address {
          assert Addresses(existing)[i] == existing[i].address;
        }
        RegisteredAppends(existing, contract);
      }
    }
  }

  // ----- Per-contract transaction lists -----

  /** The transactions addressed to `address`, in fetched order. */
  function TransactionsTo(transactions: seq<Transaction>, address: string): (r: seq<Transaction>)
    ensures forall i :: 0 <= i < |r| ==> r[i].to == address
  {
    Filter((txn: Transaction) => txn.to == address, transactions)
  }

  /** The list is the fetched list with exactly the transactions to other addresses deleted. */
  lemma TransactionsToExact(transactions: seq<Transaction>, address: string)
    ensures IsSubsequence(TransactionsTo(transactions, address), transactions)
    ensures forall txn :: multiset(TransactionsTo(transactions, address))[txn]
                          == if txn.to == address then multiset(transactions)[txn] else 0
  {
    var toAddress := (txn: Transaction) => txn.to == address;
    FilterIsSubsequence(toAddress, transactions);
    forall txn ensures multiset(Filter(toAddress, transactions))[txn]
                       == if toAddress(txn) then multiset(transactions)[txn] else 0 {
      FilterCount(toAddress, transactions, txn);
    }
  }

  /** What one contract panel is given. */
  datatype ContractPanel = ContractPanel(
    contract: Contract,
    transactionsPreviousPeriod: seq<Transaction>,
    transactionsCurrentPeriod: seq<Transaction>)

  /** One panel per displayed contract, each with that contract's share of both periods. */
  function ContractPanels(contracts: seq<Contract>, previous: seq<Transaction>, current: seq<Transaction>)
    : (panels: seq<ContractPanel>)
    ensures |panels| == |contracts|
    ensures forall i :: 0 <= i < |panels| ==> panels[i].contract == contracts[i]
    ensures forall i, k :: 0 <= i < |panels| && 0 <= k < |panels[i].transactionsCurrentPeriod| ==>
              panels[i].transactionsCurrentPeriod[k].to == contracts[i].address
    ensures forall i, k :: 0 <= i < |panels| && 0 <= k < |panels[i].transactionsPreviousPeriod| ==>
              panels[i].transactionsPreviousPeriod[k].to == contracts[i].address
  {
    seq(|contracts|, i requires 0 <= i < |contracts| =>
      ContractPanel(contracts[i],
                    TransactionsTo(previous, contracts[i].address),
                    TransactionsTo(current, contracts[i].address)))
  }

  /** A transaction is shown in the panel of every contract it is addressed to, and,
      when the displayed addresses are unique, in no other panel. */
  lemma PanelsPartition(contracts: seq<Contract>, previous: seq<Transaction>, current: seq<Transaction>,
                        txn: Transaction, i: nat)
    requires i < |contracts|
    ensures var panels := ContractPanels(contracts, previous, current);
            (txn in panels[i].transactionsCurrentPeriod <==> txn in current && txn.to == contracts[i].address) &&
            (txn in panels[i].transactionsPreviousPeriod <==> txn in previous && txn.to == contracts[i].address)
    ensures UniqueAddresses(contracts) ==>
            var panels := ContractPanels(contracts, previous, current);
            forall j :: 0 <= j < |contracts| && j != i && txn in panels[i].transactionsCurrentPeriod ==>
              txn !in panels[j].transactionsCurrentPeriod
  ensures UniqueAddresses(contracts) ==>
          var panels := ContractPanels(contracts, previous, current);
          forall j :: 0 <= j < |contracts| && j != i && txn in panels[i].transactionsPreviousPeriod ==>
            txn !in panels[j].transactionsPreviousPeriod
  {
    var address := contracts[i].address;
    FilterMembership((t: Transaction) => t.to == address, current);
    FilterMembership((t: Transaction) => t.to == address, previous);
    var panels := ContractPanels(contracts, previous, current);
    forall j | 0 <= j < |contracts| && j != i && txn in panels[i].transactionsCurrentPeriod
      ensures UniqueAddresses(contracts) ==> txn !in panels[j].transactionsCurrentPeriod
    {
      FilterMembership((t: Transaction) => t.to == contracts[j].address, current);
    }
    forall j | 0 <= j < |contracts| && j != i && txn in panels[i].transactionsPreviousPeriod
      ensures UniqueAddresses(contracts) ==> txn !in panels[j].transactionsPreviousPeriod
    {
      FilterMembership((t: Transaction) => t.to == contracts[j].address, previous);
    }
  }

  // ----- The readyState values getTransactions goes through -----

  /** The values `getTransactions` gives `readyState`, in order, when the fetch for
      the previous period succeeded (`previousOk`) or not and likewise the current one. */
  function FetchReadyStates(previousOk: bool, currentOk: bool): (states: seq<ChartReadyState>)
  {
    [Loading] + (if previousOk then [] else [Error]) + (if currentOk then [] else [Error]) + [Done]
  }

  /** It starts with loading and always ends with done; an error shows only in between,
      once per failed fetch. */
  lemma FetchReadyStatesShape(previousOk: bool, currentOk: bool)
    ensures var states := FetchReadyStates(previousOk, currentOk);
            states[0] == Loading && states[|states| - 1] == Done &&
            (Error in states <==> !previousOk || !currentOk) &&
            multiset(states)[Error] == (if previousOk then 0 else 1) + (if currentOk then 0 else 1)
  {
  }

  // ----- The page's state -----

  class Dashboard {
    var open: bool
    /** None when the message was set to `undefined`. */
    var errorMessage: Option<string>
    var contracts: seq<Contract>
    var previousPeriodStartDate: int
    var startDate: int
    var endDate: int
    var readyState: ChartReadyState
    /** Every value `readyState` has been set to, oldest first. */
    ghost var readyStates: seq<ChartReadyState>
    var transactionsPreviousPeriod: seq<Transaction>
    var transactionsCurrentPeriod: seq<Transaction>
    /** The local-storage entry `contracts`; None when there is no such entry. */
    var storedContracts: Option<seq<Contract>>

    ghost predicate Valid()
      reads this
    {
      readyStates != [] && readyStates[|readyStates| - 1] == readyState
    }

    /** The initial state; the three dates are the page's defaults, computed from the clock. */
    constructor (previousPeriodStart: int, start: int, end: int, storage: Option<seq<Contract>>)
      ensures Valid()
      ensures !open && errorMessage == Some("") && contracts == DefaultContracts
      ensures previousPeriodStartDate == previousPeriodStart && startDate == start && endDate == end
      ensures readyState == Loading && readyStates == [Loading]
      ensures transactionsPreviousPeriod == [] && transactionsCurrentPeriod == []
      ensures storedContracts == storage
    {
      open := false;
      errorMessage := Some("");
      contracts := DefaultContracts;
      previousPeriodStartDate, startDate, endDate := previousPeriodStart, start, end;
      readyState := Loading;
      readyStates := [Loading];
      transactionsPreviousPeriod, transactionsCurrentPeriod := [], [];
      storedContracts := storage;
    }

    method ClearTransactions()
      modifies this
      ensures transactionsPreviousPeriod == [] && transactionsCurrentPeriod == []
      ensures open == old(open) && errorMessage == old(errorMessage) && contracts == old(contracts)
      ensures previousPeriodStartDate == old(previousPeriodStartDate)
      ensures startDate == old(startDate) && endDate == old(endDate)
      ensures readyState == old(readyState) && readyStates == old(readyStates)
      ensures storedContracts == old(storedContracts)
    {
      transactionsCurrentPeriod := [];
      transactionsPreviousPeriod := [];
    }

    /** A new window is chosen: the comparison window is the same length and ends where it starts. */
    method UpdateDates(start: int, end: int)
      requires Valid()
      modifies this
      ensures Valid()
      ensures readyState == Loading && readyStates == old(readyStates) + [Loading]
      ensures transactionsPreviousPeriod == [] && transactionsCurrentPeriod == []
      ensures DateWindow(previousPeriodStartDate, startDate, endDate) == ComparisonWindow(start, end)
      ensures open == old(open) && errorMessage == old(errorMessage) && contracts == old(contracts)
      ensures storedContracts == old(storedContracts)
    {
      readyState := Loading;
      readyStates := readyStates + [Loading];
      ClearTransactions();
      var previousPeriodStart := start - (end - start);
      previousPeriodStartDate := previousPeriodStart;
      startDate := start;
      endDate := end;
    }

    /** Both periods are fetched, one after the other; `previous` and `current` are the
        outcomes (None when the fetch or its decoding failed). */
    method GetTransactions(previous: Option<seq<Transaction>>, current: Option<seq<Transaction>>)
      requires Valid()
      modifies this
      ensures Valid()
      ensures readyStates == old(readyStates) + FetchReadyStates(previous.Some?, current.Some?)
      ensures readyState == Done
      ensures transactionsPreviousPeriod == previous.GetOr([])
      ensures transactionsCurrentPeriod == current.GetOr([])
      ensures open == old(open) && errorMessage == old(errorMessage) && contracts == old(contracts)
      ensures previousPeriodStartDate == old(previousPeriodStartDate)
      ensures startDate == old(startDate) && endDate == old(endDate)
      ensures storedContracts == old(storedContracts)
    {
      readyState := Loading;
      readyStates := readyStates + [Loading];
      if previous.None? {
        readyState := Error;
        readyStates := readyStates + [Error];
      }
      if current.None? {
        readyState := Error;
        readyStates := readyStates + [Error];
      }
      readyState := Done;
      readyStates := readyStates + [Done];
      transactionsPreviousPeriod := if previous.Some? then previous.value else [];
      transactionsCurrentPeriod := if current.Some? then current.value else [];
    }

    /** Validates `contract` and, when it passes, adds it to the stored list unless its
        address is stored already. `isAddress` is what the address check returns and
        `code` what `getCode` resolves to, None when that call rejects: then the handler
        stops at the `await` and leaves the whole state as it was. */
    method AddContract(contract: Contract, isAddress: bool, code: Option<string>)
      requires Valid()
      modifies this
      ensures Valid()
      ensures GetCodeRejected(contract, isAddress, code) ==>
                open == old(open) && errorMessage == old(errorMessage) && storedContracts == old(storedContracts)
      ensures !GetCodeRejected(contract, isAddress, code) ==>
                errorMessage == Validate(contract, isAddress, code.GetOr("")) && !open
      ensures !GetCodeRejected(contract, isAddress, code) ==>
                storedContracts == if Acceptable(contract, isAddress, code.GetOr(""))
                                   then Some(Registered(old(storedContracts), contract))
                                   else old(storedContracts)
      ensures UniqueAddresses(old(storedContracts).GetOr([])) ==> UniqueAddresses(storedContracts.GetOr([]))
      ensures contracts == old(contracts)
      ensures readyState == old(readyState) && readyStates == old(readyStates)
      ensures previousPeriodStartDate == old(previousPeriodStartDate)
      ensures startDate == old(startDate) && endDate == old(endDate)
      ensures transactionsPreviousPeriod == old(transactionsPreviousPeriod)
      ensures transactionsCurrentPeriod == old(transactionsCurrentPeriod)
    {
      var message: Option<string> := None;
      if contract.name == "" {
        message := Some(NameBlankMessage);
      } else if contract.address == "" {
        message := Some(AddressBlankMessage);
      } else if !isAddress {
        message := Some(InvalidAddressMessage);
      } else {
        if code.None? {
          return;
        }
        var isConnected := !(code.value == "0x0" || code.value == "0x");
        if !isConnected {
          message := Some(NotAContractMessage);
        } else {
          if UniqueAddresses(storedContracts.GetOr([])) {
            RegisteredKeepsUnique(storedContracts, contract);
          }
          match storedContracts
          case Some(existing) =>
            var addresses := Addresses(existing);
            if contract.address !in addresses {
              existing := existing + [contract];
              storedContracts := Some(existing);
            }
          case None =>
            storedContracts := Some([contract]);
        }
      }
      errorMessage := message;
      open := false;
    }

    method OpenAddContractModal()
      modifies this
      ensures open && errorMessage == Some("")
      ensures contracts == old(contracts) && storedContracts == old(storedContracts)
      ensures readyState == old(readyState) && readyStates == old(readyStates)
      ensures previousPeriodStartDate == old(previousPeriodStartDate)
      ensures startDate == old(startDate) && endDate == old(endDate)
      ensures transactionsPreviousPeriod == old(transactionsPreviousPeriod)
      ensures transactionsCurrentPeriod == old(transactionsCurrentPeriod)
    {
      open := true;
      errorMessage := Some("");
    }
  }
}
