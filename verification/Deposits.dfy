/** Reading a node scan, internal/rpcclient/balance.go and deposits.go: three views of
    one list of unspent outputs, and when they agree. */
module Deposits {
  import opened Common

  /** One unspent output.  An amount that is not a number of satoshis is None. */
  datatype Unspent = Unspent(txid: string, script: string, height: int64, sats: Option<int64>)

  datatype ScanResult = ScanResult(height: int64, unspents: seq<Unspent>)

  datatype Status = Status(balance: int64, confirmations: int64)

  datatype Deposit = Deposit(txid: string, amount: int64)

  datatype ScanError = BadAddress | BadAmount | EmptyTxid

  /** The script of an address in hexadecimal, if it is an address. */
  type ScriptHex = string -> Option<string>

  /** From a script to the address asked about; of two with one script the later. */
  function Owners(scriptOf: ScriptHex, addrs: seq<string>): Option<map<string, string>> {
    if addrs == [] then Some(map[])
    else
      var last := addrs[|addrs| - 1];
      match Owners(scriptOf, addrs[..|addrs| - 1])
      case None => None
      case Some(m) => if scriptOf(last).None? then None else Some(m[scriptOf(last).value := last])
  }

  predicate Pays(u: Unspent, owners: map<string, string>, addr: string) { u.script in owners && owners[u.script] == addr }

  /** The output counts for an address, of which it is `txid`'s when that is asked. */
  predicate PaysFrom(u: Unspent, owners: map<string, string>, addr: string, txid: string) { Pays(u, owners, addr) && u.txid == txid }

  predicate Known(u: Unspent, owners: map<string, string>) { u.script in owners }

  function Sats(u: Unspent): int { if u.sats.Some? then u.sats.value else 0 }

  /** What the outputs that pay `addr` add up to. */
  function Total(us: seq<Unspent>, owners: map<string, string>, addr: string): int {
    if us == [] then 0
    else Total(us[..|us| - 1], owners, addr) + if Pays(us[|us| - 1], owners, addr) then Sats(us[|us| - 1]) else 0
  }

  function PositiveTotal(us: seq<Unspent>, owners: map<string, string>, addr: string): int {
    if us == [] then 0
    else
      PositiveTotal(us[..|us| - 1], owners, addr) +
      if Pays(us[|us| - 1], owners, addr) && Sats(us[|us| - 1]) > 0 then Sats(us[|us| - 1]) else 0
  }

  function GroupTotal(us: seq<Unspent>, owners: map<string, string>, addr: string, txid: string): int {
    if us == [] then 0
    else
      GroupTotal(us[..|us| - 1], owners, addr, txid) +
      if PaysFrom(us[|us| - 1], owners, addr, txid) then Sats(us[|us| - 1]) else 0
  }

  function Txids(us: seq<Unspent>, owners: map<string, string>, addr: string): set<string> {
    set i | 0 <= i < |us| && Pays(us[i], owners, addr) :: us[i].txid
  }

  function Confirmations(height: int64, u: Unspent): (c: int64)
    ensures c >= 0
  {
    var c := Wrap64(height - u.height + 1);
    if c < 0 then 0 else c
  }

  /** AnalyzeFunding's running depth, in which 0 also stands for "none yet". */
  function Depth(height: int64, us: seq<Unspent>, owners: map<string, string>, addr: string): (d: int64)
    ensures d >= 0
  {
    if us == [] then 0
    else
      var d := Depth(height, us[..|us| - 1], owners, addr);
      var u := us[|us| - 1];
      if !Pays(u, owners, addr) || Sats(u) <= 0 then d
      else if d == 0 || Confirmations(height, u) < d then Confirmations(height, u)
      else d
  }

  predicate AmountsParse(us: seq<Unspent>, owners: map<string, string>) {
    forall i :: 0 <= i < |us| && Known(us[i], owners) ==> us[i].sats.Some?
  }

  lemma {:induction false} OwnedAreAsked(scriptOf: ScriptHex, addrs: seq<string>)
    ensures Owners(scriptOf, addrs).Some? ==> forall s :: s in Owners(scriptOf, addrs).value ==> Owners(scriptOf, addrs).value[s] in addrs
    ensures Owners(scriptOf, addrs).Some? <==> forall i :: 0 <= i < |addrs| ==> scriptOf(addrs[i]).Some?
  {
    if addrs != [] {
      var init := addrs[..|addrs| - 1];
      OwnedAreAsked(scriptOf, init);
      assert addrs == init + [addrs[|addrs| - 1]];
    }
  }

  /** A script belongs to the last address asked about that has it, and no other script
      belongs to anyone. */
  lemma {:induction false} OwnerIsLast(scriptOf: ScriptHex, addrs: seq<string>, script: string)
    requires Owners(scriptOf, addrs).Some?
    ensures script in Owners(scriptOf, addrs).value <==> exists i :: 0 <= i < |addrs| && scriptOf(addrs[i]) == Some(script)
    ensures forall i :: 0 <= i < |addrs| && scriptOf(addrs[i]) == Some(script) && (forall j :: i < j < |addrs| ==> scriptOf(addrs[j]) != Some(script))
              ==> script in Owners(scriptOf, addrs).value && Owners(scriptOf, addrs).value[script] == addrs[i]
  {
    if addrs != [] {
      var init := addrs[..|addrs| - 1];
      OwnerIsLast(scriptOf, init, script);
      assert forall i :: 0 <= i < |init| ==> init[i] == addrs[i];
    }
  }

  // ----------------------------------------------------------------- the analyses

  method BuildOwners(scriptOf: ScriptHex, addrs: seq<string>) returns (owners: Option<map<string, string>>)
    ensures owners == Owners(scriptOf, addrs)
  {
    var m: map<string, string> := map[];
    for i := 0 to |addrs|
      invariant Owners(scriptOf, addrs[..i]) == Some(m)
    {
      var script := scriptOf(addrs[i]);
      assert addrs[..i + 1][..i] == addrs[..i];
      if script.None? {
        OwnedAreAsked(scriptOf, addrs);
        return None;
      }
      m := m[script.value := addrs[i]];
    }
    assert addrs[..|addrs|] == addrs;
    return Some(m);
  }

  function Asked(addrs: seq<string>): set<string> { set i | 0 <= i < |addrs| :: addrs[i] }

  /** A map from every address asked about, and no other, to what `us` pay it. */
  predicate Balanced(balances: map<string, int64>, us: seq<Unspent>, owners: map<string, string>, addrs: seq<string>) {
    && balances.Keys == Asked(addrs)
    && forall addr :: addr in balances ==> balances[addr] == Wrap64(Total(us, owners, addr))
  }

  lemma BalancedStep(balances: map<string, int64>, us: seq<Unspent>, owners: map<string, string>, addrs: seq<string>, i: nat)
    requires i < |us| && Balanced(balances, us[..i], owners, addrs)
    requires us[i].script in owners ==> owners[us[i].script] in balances
    ensures us[i].script !in owners ==> Balanced(balances, us[..i + 1], owners, addrs)
    ensures us[i].script in owners ==>
              var addr := owners[us[i].script];
              Balanced(balances[addr := Wrap64(balances[addr] + Sats(us[i]))], us[..i + 1], owners, addrs)
  {
    hide Asked;
    assert us[..i + 1][..i] == us[..i] && us[..i + 1][i] == us[i];
    if us[i].script in owners {
      WrapSum(Total(us[..i], owners, owners[us[i].script]), Sats(us[i]));
    }
  }

  lemma ParseStep(us: seq<Unspent>, owners: map<string, string>, i: nat)
    requires i < |us| && AmountsParse(us[..i], owners)
    ensures !Known(us[i], owners) || us[i].sats.Some? ==> AmountsParse(us[..i + 1], owners)
    ensures Known(us[i], owners) && us[i].sats.None? ==> !AmountsParse(us, owners)
  {
    assert us[..i + 1] == us[..i] + [us[i]];
  }

  lemma OwnerAsked(scriptOf: ScriptHex, addrs: seq<string>, u: Unspent)
    requires Owners(scriptOf, addrs).Some? && u.script in Owners(scriptOf, addrs).value
    ensures Owners(scriptOf, addrs).value[u.script] in Asked(addrs)
  {
    OwnedAreAsked(scriptOf, addrs);
  }

  method AggregateBalances(scan: ScanResult, scriptOf: ScriptHex, addrs: seq<string>) returns (r: Result<map<string, int64>, ScanError>)
    ensures Owners(scriptOf, addrs).None? ==> r == Err(BadAddress)
    ensures Owners(scriptOf, addrs).Some? ==>
              var owners := Owners(scriptOf, addrs).value;
              if AmountsParse(scan.unspents, owners) then r.Ok? && Balanced(r.value, scan.unspents, owners, addrs)
              else r == Err(BadAmount)
  {
    hide Owners, Total, Wrap64, AmountsParse, Known;
    var found := BuildOwners(scriptOf, addrs);
    if found.None? {
      return Err(BadAddress);
    }
    var owners, us := found.value, scan.unspents;
    var balances: map<string, int64> := map i | 0 <= i < |addrs| :: addrs[i] := 0;
    BalancedStart(balances, owners, addrs);
    hide Balanced, Asked;
    for i := 0 to |us|
      invariant AmountsParse(us[..i], owners) && Balanced(balances, us[..i], owners, addrs)
    {
      ParseStep(us, owners, i);
      if us[i].script in owners {
        OwnerAsked(scriptOf, addrs, us[i]);
        var addr := owners[us[i].script];
        KnownIs(us[i], owners);
        if us[i].sats.None? {
          return Err(BadAmount);
        }
        BalancedStep(balances, us, owners, addrs, i);
        balances := balances[addr := Wrap64(balances[addr] + us[i].sats.value)];
      } else {
        KnownIs(us[i], owners);
        BalancedStep(balances, us, owners, addrs, i);
      }
    }
    assert us[..|us|] == us;
    return Ok(balances);
  }

  lemma KnownIs(u: Unspent, owners: map<string, string>)
    ensures Known(u, owners) <==> u.script in owners
  {
  }

  lemma BalancedStart(balances: map<string, int64>, owners: map<string, string>, addrs: seq<string>)
    requires balances.Keys == Asked(addrs) && forall addr :: addr in balances ==> balances[addr] == 0
    ensures Balanced(balances, [], owners, addrs) && AmountsParse([], owners)
  {
  }

  // ------------------------------------------------------------------ AnalyzeFunding

  predicate StatusesOf(statuses: map<string, Status>, height: int64, us: seq<Unspent>, owners: map<string, string>, addrs: seq<string>) {
    && statuses.Keys == Asked(addrs)
    && forall addr :: addr in statuses ==>
         statuses[addr] == Status(Wrap64(PositiveTotal(us, owners, addr)), Depth(height, us, owners, addr))
  }

  /** One turn of the loop. */
  function Counted(status: Status, height: int64, u: Unspent): Status {
    if Sats(u) <= 0 then status
    else
      var c := Confirmations(height, u);
      Status(Wrap64(status.balance + Sats(u)), if status.confirmations == 0 || c < status.confirmations then c else status.confirmations)
  }

  lemma FundingStep(statuses: map<string, Status>, height: int64, us: seq<Unspent>, owners: map<string, string>, addrs: seq<string>, i: nat)
    requires i < |us| && StatusesOf(statuses, height, us[..i], owners, addrs)
    requires us[i].script in owners ==> owners[us[i].script] in statuses
    ensures us[i].script !in owners ==> StatusesOf(statuses, height, us[..i + 1], owners, addrs)
    ensures us[i].script in owners ==>
              var addr := owners[us[i].script];
              StatusesOf(statuses[addr := Counted(statuses[addr], height, us[i])], height, us[..i + 1], owners, addrs)
  {
    hide Asked, Confirmations, Wrap64;
    assert us[..i + 1][..i] == us[..i] && us[..i + 1][i] == us[i];
    if us[i].script in owners {
      WrapSum(PositiveTotal(us[..i], owners, owners[us[i].script]), Sats(us[i]));
    }
  }

  lemma FundingKeys(statuses: map<string, Status>, height: int64, us: seq<Unspent>, owners: map<string, string>, addrs: seq<string>)
    requires StatusesOf(statuses, height, us, owners, addrs)
    ensures statuses.Keys == Asked(addrs)
  {
  }

  lemma FundingStart(statuses: map<string, Status>, height: int64, owners: map<string, string>, addrs: seq<string>)
    requires statuses.Keys == Asked(addrs) && forall addr :: addr in statuses ==> statuses[addr] == Status(0, 0)
    ensures StatusesOf(statuses, height, [], owners, addrs) && AmountsParse([], owners)
  {
  }

  method CountOutput(status: Status, height: int64, u: Unspent) returns (r: Status)
    requires u.sats.Some?
    ensures r == Counted(status, height, u)
  {
    var sats := u.sats.value;
    if sats <= 0 {
      return status;
    }
    var confirmations := Confirmations(height, u);
    r := status.(balance := Wrap64(status.balance + sats));
    if status.confirmations == 0 || confirmations < status.confirmations {
      r := r.(confirmations := confirmations);
    }
  }

  method AnalyzeFunding(scan: ScanResult, scriptOf: ScriptHex, addrs: seq<string>) returns (r: Result<map<string, Status>, ScanError>)
    ensures Owners(scriptOf, addrs).None? ==> r == Err(BadAddress)
    ensures Owners(scriptOf, addrs).Some? ==>
              var owners := Owners(scriptOf, addrs).value;
              if AmountsParse(scan.unspents, owners) then r.Ok? && StatusesOf(r.value, scan.height, scan.unspents, owners, addrs)
              else r == Err(BadAmount)
  {
    hide Owners, PositiveTotal, Depth, Counted, Wrap64, AmountsParse, Known;
    var found := BuildOwners(scriptOf, addrs);
    if found.None? {
      return Err(BadAddress);
    }
    var owners, us := found.value, scan.unspents;
    var statuses: map<string, Status> := map i | 0 <= i < |addrs| :: addrs[i] := Status(0, 0);
    FundingStart(statuses, scan.height, owners, addrs);
    hide StatusesOf, Asked;
    for i := 0 to |us|
      invariant AmountsParse(us[..i], owners) && StatusesOf(statuses, scan.height, us[..i], owners, addrs)
    {
      ParseStep(us, owners, i);
      KnownIs(us[i], owners);
      if us[i].script in owners {
        OwnerAsked(scriptOf, addrs, us[i]);
        FundingKeys(statuses, scan.height, us[..i], owners, addrs);
        var addr := owners[us[i].script];
        if us[i].sats.None? {
          return Err(BadAmount);
        }
        FundingStep(statuses, scan.height, us, owners, addrs, i);
        var status := CountOutput(statuses[addr], scan.height, us[i]);
        statuses := statuses[addr := status];
      } else {
        FundingStep(statuses, scan.height, us, owners, addrs, i);
      }
    }
    assert us[..|us|] == us;
    return Ok(statuses);
  }

  // ----------------------------------------------------------------- AnalyzeDeposits

  /** The first complaint about an output that pays an address asked about. */
  function Complaint(us: seq<Unspent>, owners: map<string, string>): Option<ScanError> {
    if us == [] then None
    else
      var earlier := Complaint(us[..|us| - 1], owners);
      var u := us[|us| - 1];
      if earlier.Some? || !Known(u, owners) then earlier
      else if u.txid == "" then Some(EmptyTxid)
      else if u.sats.None? then Some(BadAmount)
      else None
  }

  lemma {:induction false} ComplaintStays(us: seq<Unspent>, owners: map<string, string>, n: nat)
    requires n <= |us| && Complaint(us[..n], owners).Some?
    ensures Complaint(us, owners) == Complaint(us[..n], owners)
    decreases |us|
  {
    if n < |us| {
      assert us[..|us| - 1][..n] == us[..n];
      ComplaintStays(us[..|us| - 1], owners, n);
    } else {
      assert us[..n] == us;
    }
  }

  type Groups = map<string, map<string, int64>>

  predicate Grouping(groups: Groups, us: seq<Unspent>, owners: map<string, string>, addrs: seq<string>) {
    && groups.Keys == Asked(addrs)
    && forall addr :: addr in groups ==> Grouped(groups[addr], us, owners, addr)
  }

  predicate Grouped(group: map<string, int64>, us: seq<Unspent>, owners: map<string, string>, addr: string) {
    && group.Keys == Txids(us, owners, addr)
    && forall t :: t in group ==> group[t] == Wrap64(GroupTotal(us, owners, addr, t))
  }

  /** Adding to a group; an id not seen before counts from zero. */
  function Added(group: map<string, int64>, txid: string, sats: int): map<string, int64> {
    group[txid := Wrap64((if txid in group then group[txid] else 0) + sats)]
  }

  lemma TxidsStep(us: seq<Unspent>, owners: map<string, string>, addr: string, i: nat)
    requires i < |us|
    ensures Txids(us[..i + 1], owners, addr) == Txids(us[..i], owners, addr) + if Pays(us[i], owners, addr) then {us[i].txid} else {}
  {
    var a, b := us[..i + 1], us[..i];
    assert a == b + [us[i]];
    forall t | t in Txids(b, owners, addr) ensures t in Txids(a, owners, addr) {
      var k :| 0 <= k < |b| && Pays(b[k], owners, addr) && b[k].txid == t;
      assert a[k] == b[k];
    }
    assert a[i] == us[i];
  }

  lemma {:induction false} NoGroupTotal(us: seq<Unspent>, owners: map<string, string>, addr: string, txid: string)
    requires txid !in Txids(us, owners, addr)
    ensures GroupTotal(us, owners, addr, txid) == 0
  {
    if us != [] {
      var i := |us| - 1;
      TxidsStep(us, owners, addr, i);
      assert us[..i + 1] == us;
      NoGroupTotal(us[..i], owners, addr, txid);
    }
  }

  lemma GroupedStep(group: map<string, int64>, us: seq<Unspent>, owners: map<string, string>, addr: string, i: nat)
    requires i < |us| && Grouped(group, us[..i], owners, addr)
    ensures Grouped(if Pays(us[i], owners, addr) then Added(group, us[i].txid, Sats(us[i])) else group, us[..i + 1], owners, addr)
  {
    hide Wrap64, Txids;
    TxidsStep(us, owners, addr, i);
    assert us[..i + 1][..i] == us[..i] && us[..i + 1][i] == us[i];
    var txid := us[i].txid;
    WrapSum(GroupTotal(us[..i], owners, addr, txid), Sats(us[i]));
    WrapExact(Sats(us[i]));
    if txid !in group { NoGroupTotal(us[..i], owners, addr, txid); }
    WrapExact(0);
  }

  lemma GroupingStep(groups: Groups, us: seq<Unspent>, owners: map<string, string>, addrs: seq<string>, i: nat)
    requires i < |us| && Grouping(groups, us[..i], owners, addrs)
    requires us[i].script in owners ==> owners[us[i].script] in groups
    ensures us[i].script !in owners ==> Grouping(groups, us[..i + 1], owners, addrs)
    ensures us[i].script in owners ==>
              var addr := owners[us[i].script];
              Grouping(groups[addr := Added(groups[addr], us[i].txid, Sats(us[i]))], us[..i + 1], owners, addrs)
  {
    hide Grouped, Asked, Added, Sats;
    forall addr | addr in groups
      ensures Grouped(if Pays(us[i], owners, addr) then Added(groups[addr], us[i].txid, Sats(us[i])) else groups[addr],
                      us[..i + 1], owners, addr)
    {
      GroupedStep(groups[addr], us, owners, addr, i);
    }
  }

  method GroupByTxid(scan: ScanResult, scriptOf: ScriptHex, addrs: seq<string>) returns (r: Result<Groups, ScanError>)
    ensures Owners(scriptOf, addrs).None? ==> r == Err(BadAddress)
    ensures Owners(scriptOf, addrs).Some? ==>
              var owners := Owners(scriptOf, addrs).value;
              if Complaint(scan.unspents, owners).Some? then r == Err(Complaint(scan.unspents, owners).value)
              else r.Ok? && Grouping(r.value, scan.unspents, owners, addrs)
  {
    hide Owners, Wrap64, Added;
    var found := BuildOwners(scriptOf, addrs);
    if found.None? {
      return Err(BadAddress);
    }
    var owners, us := found.value, scan.unspents;
    var groups: Groups := map i | 0 <= i < |addrs| :: addrs[i] := map[];
    hide Grouping, Asked;
    for i := 0 to |us|
      invariant Complaint(us[..i], owners).None? && Grouping(groups, us[..i], owners, addrs)
    {
      assert us[..i + 1][..i] == us[..i] && us[..i + 1][i] == us[i];
      if Complaint(us[..i + 1], owners).Some? { ComplaintStays(us, owners, i + 1); }
      if us[i].script in owners {
        OwnerAsked(scriptOf, addrs, us[i]);
        var addr := owners[us[i].script];
        if us[i].txid == "" {
          return Err(EmptyTxid);
        }
        if us[i].sats.None? {
          return Err(BadAmount);
        }
        GroupingStep(groups, us, owners, addrs, i);
        groups := groups[addr := Added(groups[addr], us[i].txid, us[i].sats.value)];
      } else {
        GroupingStep(groups, us, owners, addrs, i);
      }
    }
    assert us[..|us|] == us;
    return Ok(groups);
  }

  // ------------------------------------------------------------- listing the groups

  function Occurrences(ds: seq<Deposit>, txid: string): nat {
    if ds == [] then 0
    else Occurrences(ds[..|ds| - 1], txid) + if ds[|ds| - 1].txid == txid then 1 else 0
  }

  function Count(addrs: seq<string>, addr: string): nat {
    if addrs == [] then 0
    else Count(addrs[..|addrs| - 1], addr) + if addrs[|addrs| - 1] == addr then 1 else 0
  }

  /** Every entry of the group is listed `n` times and nothing else is. */
  ghost predicate Lists(ds: seq<Deposit>, group: map<string, int64>, n: nat) {
    && (forall i :: 0 <= i < |ds| ==> ds[i].txid in group && ds[i].amount == group[ds[i].txid])
    && forall t: string :: Occurrences(ds, t) == if t in group then n else 0
  }

  lemma {:induction false} OccurrencesJoin(a: seq<Deposit>, b: seq<Deposit>, t: string)
    ensures Occurrences(a + b, t) == Occurrences(a, t) + Occurrences(b, t)
  {
    if b == [] {
      assert a + b == a;
    } else {
      assert (a + b)[..|a + b| - 1] == a + b[..|b| - 1];
      OccurrencesJoin(a, b[..|b| - 1], t);
    }
  }

  /** Ranging over a Go map: any order, every key once. */
  method ListGroup(group: map<string, int64>) returns (ds: seq<Deposit>)
    ensures Lists(ds, group, 1)
  {
    ds := [];
    var left := group.Keys;
    while left != {}
      invariant left <= group.Keys
      invariant forall i :: 0 <= i < |ds| ==> ds[i].txid in group && ds[i].amount == group[ds[i].txid]
      invariant forall t: string :: Occurrences(ds, t) == if t in group && t !in left then 1 else 0
      decreases |left|
    {
      var t :| t in left;
      ds := ds + [Deposit(t, group[t])];
      left := left - {t};
    }
  }

  ghost predicate Listing(all: map<string, seq<Deposit>>, groups: Groups, addrs: seq<string>)
    requires Asked(addrs) <= groups.Keys
  {
    && (forall addr :: addr in all <==> addr in Asked(addrs) && groups[addr] != map[])
    && forall addr :: addr in all ==> Lists(all[addr], groups[addr], Count(addrs, addr))
  }

  lemma AskedStep(addrs: seq<string>, i: nat)
    requires i < |addrs|
    ensures Asked(addrs[..i + 1]) == Asked(addrs[..i]) + {addrs[i]}
  {
    var a, b := addrs[..i + 1], addrs[..i];
    forall t | t in Asked(b) ensures t in Asked(a) {
      var k :| 0 <= k < |b| && b[k] == t;
      assert a[k] == b[k];
    }
    assert a[i] == addrs[i];
    assert a == b + [addrs[i]];
  }

  lemma {:induction false} NotAsked(addrs: seq<string>, addr: string)
    ensures addr in Asked(addrs) <==> Count(addrs, addr) > 0
  {
    if addrs != [] {
      NotAsked(addrs[..|addrs| - 1], addr);
      AskedStep(addrs, |addrs| - 1);
      assert addrs[..|addrs|] == addrs;
    }
  }

  lemma {:induction false} GroupAbsent(ds: seq<Deposit>, group: map<string, int64>, n: nat)
    requires Lists(ds, group, n) && n > 0
    ensures ds == [] <==> group == map[]
  {
    if group != map[] {
      var t :| t in group;
      assert Occurrences(ds, t) == n;
    }
  }

  lemma ListsJoin(a: seq<Deposit>, b: seq<Deposit>, group: map<string, int64>, n: nat, m: nat)
    requires Lists(a, group, n) && Lists(b, group, m)
    ensures Lists(a + b, group, n + m)
  {
    forall t: string ensures Occurrences(a + b, t) == if t in group then n + m else 0 {
      OccurrencesJoin(a, b, t);
    }
  }

  /** The deposits of address `i` are appended to what its earlier mentions left. */
  lemma ListingStep(all: map<string, seq<Deposit>>, groups: Groups, addrs: seq<string>, i: nat, ds: seq<Deposit>)
    requires Asked(addrs) <= groups.Keys && i < |addrs| && Asked(addrs[..i]) <= groups.Keys && Asked(addrs[..i + 1]) <= groups.Keys
    requires addrs[i] in groups && Lists(ds, groups[addrs[i]], 1) && Listing(all, groups, addrs[..i])
    ensures var addr := addrs[i];
            Listing(if ds == [] then all else all[addr := (if addr in all then all[addr] else []) + ds], groups, addrs[..i + 1])
  {
    hide Lists, Asked;
    var addr := addrs[i];
    AskedStep(addrs, i);
    GroupAbsent(ds, groups[addr], 1);
    assert addrs[..i + 1][..i] == addrs[..i];
    NotAsked(addrs[..i], addr);
    if ds != [] {
      if addr in all {
        ListsJoin(all[addr], ds, groups[addr], Count(addrs[..i], addr), 1);
      } else {
        assert [] + ds == ds;
      }
    }
  }

  method AnalyzeDeposits(scan: ScanResult, scriptOf: ScriptHex, addrs: seq<string>)
    returns (r: Result<map<string, seq<Deposit>>, ScanError>)
    ensures Owners(scriptOf, addrs).None? ==> r == Err(BadAddress)
    ensures Owners(scriptOf, addrs).Some? ==>
              var owners := Owners(scriptOf, addrs).value;
              if Complaint(scan.unspents, owners).Some? then r == Err(Complaint(scan.unspents, owners).value)
              else r.Ok? && exists groups: Groups ::
                     Grouping(groups, scan.unspents, owners, addrs) && Listing(r.value, groups, addrs)
  {
    var grouped := GroupByTxid(scan, scriptOf, addrs);
    if grouped.Err? {
      return Err(grouped.error);
    }
    hide Owners, Complaint, Grouped, Lists;
    var groups := grouped.value;
    var all: map<string, seq<Deposit>> := map[];
    assert addrs[..0] == [];
    for i := 0 to |addrs|
      invariant Listing(all, groups, addrs[..i])
    {
      var ds := ListGroup(groups[addrs[i]]);
      ListingStep(all, groups, addrs, i, ds);
      if |ds| > 0 {
        all := all[addrs[i] := (if addrs[i] in all then all[addrs[i]] else []) + ds];
      }
    }
    assert addrs[..|addrs|] == addrs;
    return Ok(all);
  }

  // --------------------------------------------------------------------- theorems

  /** Balances and groups add up over any way to cut the scan. */
  lemma {:induction false} TotalsAdd(us: seq<Unspent>, vs: seq<Unspent>, owners: map<string, string>, addr: string, txid: string)
    ensures Total(us + vs, owners, addr) == Total(us, owners, addr) + Total(vs, owners, addr)
    ensures PositiveTotal(us + vs, owners, addr) == PositiveTotal(us, owners, addr) + PositiveTotal(vs, owners, addr)
    ensures GroupTotal(us + vs, owners, addr, txid) == GroupTotal(us, owners, addr, txid) + GroupTotal(vs, owners, addr, txid)
    decreases |vs|
  {
    if vs == [] {
      assert us + vs == us;
    } else {
      var init := vs[..|vs| - 1];
      assert (us + vs)[..|us + vs| - 1] == us + init && (us + vs)[|us + vs| - 1] == vs[|vs| - 1];
      TotalsAdd(us, init, owners, addr, txid);
    }
  }

  /** What one output counts for. */
  lemma OneOutput(height: int64, u: Unspent, owners: map<string, string>, addr: string, txid: string)
    requires u.sats.Some?
    ensures var mine := u.script in owners && owners[u.script] == addr;
            && Total([u], owners, addr) == (if mine then u.sats.value else 0)
            && PositiveTotal([u], owners, addr) == (if mine && u.sats.value > 0 then u.sats.value else 0)
            && GroupTotal([u], owners, addr, txid) == (if mine && u.txid == txid then u.sats.value else 0)
            && Depths(height, [u], owners, addr) == if mine && u.sats.value > 0 then [Confirmations(height, u)] else []
  {
    hide Confirmations;
    assert [u][..0] == [];
  }

  /** A complaint about a scan is about its first output, among those that count, without
      an id or with an amount that is none. */
  lemma {:induction false} ComplaintMeans(us: seq<Unspent>, owners: map<string, string>)
    requires Complaint(us, owners).Some?
    ensures exists i :: 0 <= i < |us| && Complaint(us[..i], owners).None? && us[i].script in owners
              && ((Complaint(us, owners) == Some(EmptyTxid) && us[i].txid == "")
                  || (Complaint(us, owners) == Some(BadAmount) && us[i].txid != "" && us[i].sats.None?))
  {
    var init := us[..|us| - 1];
    if Complaint(init, owners).Some? {
      ComplaintMeans(init, owners);
      var i :| 0 <= i < |init| && Complaint(init[..i], owners).None? && init[i].script in owners
              && ((Complaint(init, owners) == Some(EmptyTxid) && init[i].txid == "")
                  || (Complaint(init, owners) == Some(BadAmount) && init[i].txid != "" && init[i].sats.None?));
      assert us[..i] == init[..i] && us[i] == init[i];
    } else {
      assert us[..|us| - 1] == init;
    }
  }

  function SumDeposits(ds: seq<Deposit>): int {
    if ds == [] then 0 else SumDeposits(ds[..|ds| - 1]) + ds[|ds| - 1].amount
  }

  predicate AllPositive(us: seq<Unspent>, owners: map<string, string>) {
    forall i :: 0 <= i < |us| && Known(us[i], owners) ==> us[i].sats.Some? && us[i].sats.value > 0
  }

  lemma {:induction false} PositiveTotals(us: seq<Unspent>, owners: map<string, string>, addr: string)
    requires AllPositive(us, owners)
    ensures PositiveTotal(us, owners, addr) == Total(us, owners, addr) >= 0
  {
    if us != [] { PositiveTotals(us[..|us| - 1], owners, addr); }
  }

  lemma {:induction false} GroupWithin(us: seq<Unspent>, owners: map<string, string>, addr: string, txid: string)
    requires AllPositive(us, owners)
    ensures 0 <= GroupTotal(us, owners, addr, txid) <= Total(us, owners, addr)
  {
    if us != [] { GroupWithin(us[..|us| - 1], owners, addr, txid); }
  }

  /** The group totals of the listed ids, one for each mention. */
  function SumGroups(ds: seq<Deposit>, us: seq<Unspent>, owners: map<string, string>, addr: string): int {
    if ds == [] then 0
    else SumGroups(ds[..|ds| - 1], us, owners, addr) + GroupTotal(us, owners, addr, ds[|ds| - 1].txid)
  }

  lemma {:induction false} SumGroupsStep(ds: seq<Deposit>, us: seq<Unspent>, owners: map<string, string>, addr: string)
    requires us != []
    ensures var u := us[|us| - 1];
            SumGroups(ds, us, owners, addr) == SumGroups(ds, us[..|us| - 1], owners, addr)
              + if Pays(u, owners, addr) then Sats(u) * Occurrences(ds, u.txid) else 0
  {
    hide Pays, Sats, GroupTotal;
    if ds != [] {
      var init, d, u := ds[..|ds| - 1], ds[|ds| - 1], us[|us| - 1];
      SumGroupsStep(init, us, owners, addr);
      GroupTotalStep(us, owners, addr, d.txid);
      Distribute(Sats(u), Occurrences(init, u.txid), if d.txid == u.txid then 1 else 0);
      hide Occurrences, SumGroups;
    }
  }

  lemma GroupTotalStep(us: seq<Unspent>, owners: map<string, string>, addr: string, txid: string)
    requires us != []
    ensures var u := us[|us| - 1];
            GroupTotal(us, owners, addr, txid) == GroupTotal(us[..|us| - 1], owners, addr, txid)
              + if Pays(u, owners, addr) && u.txid == txid then Sats(u) else 0
  {
  }

  lemma {:induction false} SumGroupsNone(ds: seq<Deposit>, owners: map<string, string>, addr: string)
    ensures SumGroups(ds, [], owners, addr) == 0
  {
    if ds != [] { SumGroupsNone(ds[..|ds| - 1], owners, addr); }
  }

  /** Double counting: `n` mentions of every id make `n` times the balance. */
  lemma {:induction false} SumGroupsIs(ds: seq<Deposit>, us: seq<Unspent>, owners: map<string, string>, addr: string, n: nat)
    requires forall i :: 0 <= i < |us| && Pays(us[i], owners, addr) ==> Occurrences(ds, us[i].txid) == n
    ensures SumGroups(ds, us, owners, addr) == n * Total(us, owners, addr)
    decreases |us|
  {
    if us == [] {
      SumGroupsNone(ds, owners, addr);
    } else {
      var init, u := us[..|us| - 1], us[|us| - 1];
      SumGroupsIs(ds, init, owners, addr, n);
      SumGroupsStep(ds, us, owners, addr);
      Distribute(n, Total(init, owners, addr), Sats(u));
      Commute(n, Sats(u));
    }
  }

  lemma Commute(x: int, y: int)
    ensures x * y == y * x
  {
  }

  lemma Distribute(n: int, x: int, y: int)
    ensures n * (x + y) == n * x + n * y
  {
  }

  lemma {:induction false} SumIsGroups(ds: seq<Deposit>, us: seq<Unspent>, owners: map<string, string>, addr: string)
    requires forall i :: 0 <= i < |ds| ==> ds[i].amount == GroupTotal(us, owners, addr, ds[i].txid)
    ensures SumDeposits(ds) == SumGroups(ds, us, owners, addr)
  {
    if ds != [] { SumIsGroups(ds[..|ds| - 1], us, owners, addr); }
  }

  /** With positive amounts that fit int64, the balance, the funding status and the
      deposits agree for every address, once for each time the address was asked. */
  lemma AnalysesAgree(us: seq<Unspent>, height: int64, owners: map<string, string>, addrs: seq<string>, addr: string,
                      balances: map<string, int64>, statuses: map<string, Status>, all: map<string, seq<Deposit>>, groups: Groups)
    requires AllPositive(us, owners) && Total(us, owners, addr) <= MAX_INT64 && addr in Asked(addrs)
    requires Balanced(balances, us, owners, addrs) && StatusesOf(statuses, height, us, owners, addrs)
    requires Grouping(groups, us, owners, addrs) && Listing(all, groups, addrs)
    ensures var ds := if addr in all then all[addr] else [];
            && balances[addr] == statuses[addr].balance == Total(us, owners, addr)
            && SumDeposits(ds) == Count(addrs, addr) * balances[addr]
            && (forall i :: 0 <= i < |ds| ==> ds[i].amount > 0)
            && (SumDeposits(ds) == balances[addr] <==> Count(addrs, addr) == 1 || balances[addr] == 0)
  {
    hide Asked, Confirmations, Depth, Total, GroupTotal, Txids, Occurrences, Count, Wrap64;
    PositiveTotals(us, owners, addr);
    WrapExact(Total(us, owners, addr));
    var ds := if addr in all then all[addr] else [];
    var n := Count(addrs, addr);
    GroupsListed(us, owners, addr, ds, groups[addr], n);
    NotAsked(addrs, addr);
    OnceOrNothing(n, balances[addr]);
  }

  lemma OnceOrNothing(n: nat, x: nat)
    ensures n * x == x <==> n == 1 || x == 0
  {
    if n == 0 {
    } else if n > 1 && x > 0 {
      assert n * x == x + (n - 1) * x;
      assert (n - 1) * x > 0;
    }
  }

  lemma GroupsListed(us: seq<Unspent>, owners: map<string, string>, addr: string, ds: seq<Deposit>, group: map<string, int64>, n: nat)
    requires AllPositive(us, owners) && Total(us, owners, addr) <= MAX_INT64
    requires Grouped(group, us, owners, addr) && (Lists(ds, group, n) || (ds == [] && group == map[]))
    ensures SumDeposits(ds) == n * Total(us, owners, addr)
    ensures forall i :: 0 <= i < |ds| ==> ds[i].amount > 0
  {
    hide Total, GroupTotal, Occurrences, Wrap64;
    forall i | 0 <= i < |ds| ensures ds[i].amount == GroupTotal(us, owners, addr, ds[i].txid) > 0 {
      GroupWithin(us, owners, addr, ds[i].txid);
      WrapExact(GroupTotal(us, owners, addr, ds[i].txid));
      GroupPositive(us, owners, addr, ds[i].txid);
    }
    SumIsGroups(ds, us, owners, addr);
    if group == map[] && ds == [] {
      NothingPaid(us, owners, addr);
    } else {
      forall i | 0 <= i < |us| && Pays(us[i], owners, addr) ensures Occurrences(ds, us[i].txid) == n {
        assert us[i].txid in Txids(us, owners, addr);
      }
      SumGroupsIs(ds, us, owners, addr, n);
    }
  }

  lemma {:induction false} GroupPositive(us: seq<Unspent>, owners: map<string, string>, addr: string, txid: string)
    requires AllPositive(us, owners) && txid in Txids(us, owners, addr)
    ensures GroupTotal(us, owners, addr, txid) > 0
  {
    var i := |us| - 1;
    TxidsStep(us, owners, addr, i);
    assert us[..i + 1] == us;
    if txid in Txids(us[..i], owners, addr) { GroupPositive(us[..i], owners, addr, txid); }
    GroupWithin(us[..i], owners, addr, txid);
  }

  lemma {:induction false} NothingPaid(us: seq<Unspent>, owners: map<string, string>, addr: string)
    requires Txids(us, owners, addr) == {}
    ensures Total(us, owners, addr) == 0
  {
    if us != [] {
      var i := |us| - 1;
      TxidsStep(us, owners, addr, i);
      assert us[..i + 1] == us;
      NothingPaid(us[..i], owners, addr);
    }
  }

  // ---------------------------------------------------------- the shallowest output

  /** The depths of the outputs that count, in scan order. */
  function Depths(height: int64, us: seq<Unspent>, owners: map<string, string>, addr: string): (cs: seq<int64>)
    ensures forall i :: 0 <= i < |cs| ==> cs[i] >= 0
  {
    if us == [] then []
    else
      var u := us[|us| - 1];
      Depths(height, us[..|us| - 1], owners, addr) + if Pays(u, owners, addr) && Sats(u) > 0 then [Confirmations(height, u)] else []
  }

  /** The least of `cs`, and 0 when there is none. */
  predicate Least(d: int64, cs: seq<int64>) {
    if cs == [] then d == 0
    else (exists i :: 0 <= i < |cs| && cs[i] == d) && forall i :: 0 <= i < |cs| ==> d <= cs[i]
  }

  /** The same running depth, over the depths alone. */
  function Fold(cs: seq<int64>): int64 {
    if cs == [] then 0
    else
      var d, c := Fold(cs[..|cs| - 1]), cs[|cs| - 1];
      if d == 0 || c < d then c else d
  }

  lemma {:induction false} DepthFolds(height: int64, us: seq<Unspent>, owners: map<string, string>, addr: string)
    ensures Depth(height, us, owners, addr) == Fold(Depths(height, us, owners, addr))
  {
    hide Confirmations;
    if us != [] {
      var init, u := us[..|us| - 1], us[|us| - 1];
      DepthFolds(height, init, owners, addr);
      if Pays(u, owners, addr) && Sats(u) > 0 {
        var cs := Depths(height, init, owners, addr) + [Confirmations(height, u)];
        assert Depths(height, us, owners, addr) == cs && cs[..|cs| - 1] == Depths(height, init, owners, addr);
      } else {
        assert Depths(height, us, owners, addr) == Depths(height, init, owners, addr);
      }
    }
  }

  lemma {:induction false} FoldBounds(cs: seq<int64>)
    requires forall i :: 0 <= i < |cs| ==> cs[i] >= 0
    ensures cs != [] ==> exists i :: 0 <= i < |cs| && cs[i] == Fold(cs)
    ensures (forall i :: 0 <= i < |cs| ==> cs[i] != 0) ==> forall i :: 0 <= i < |cs| ==> Fold(cs) <= cs[i]
    ensures cs != [] ==> (Fold(cs) == 0 <==> cs[|cs| - 1] == 0)
  {
    if cs != [] {
      var init := cs[..|cs| - 1];
      FoldBounds(init);
      if Fold(cs) != cs[|cs| - 1] {
        var i :| 0 <= i < |init| && init[i] == Fold(init);
        assert cs[i] == Fold(cs);
      }
      forall i | 0 <= i < |cs| && forall k :: 0 <= k < |cs| ==> cs[k] != 0 ensures Fold(cs) <= cs[i] {
        if i < |init| { assert init[i] == cs[i]; }
      }
    }
  }

  /** AnalyzeFunding reports the shallowest depth exactly when no counted output lies
      above the tip, or the last counted one does. */
  lemma DepthIsLeastIff(height: int64, us: seq<Unspent>, owners: map<string, string>, addr: string)
    ensures var cs := Depths(height, us, owners, addr);
            Least(Depth(height, us, owners, addr), cs) <==>
              (forall i :: 0 <= i < |cs| ==> cs[i] != 0) || cs[|cs| - 1] == 0
  {
    hide Depth, Depths;
    DepthFolds(height, us, owners, addr);
    var cs := Depths(height, us, owners, addr);
    FoldBounds(cs);
    if i :| 0 <= i < |cs| && cs[i] == 0 {
      assert Fold(cs) <= cs[i] ==> Fold(cs) <= 0;
    }
  }

  /** One counted output above the tip, and after it one of depth 51: 51 is reported. */
  lemma DepthExample()
    ensures var owners := map["script" := "addr"];
            var us := [Unspent("t", "script", 101, Some(5)), Unspent("u", "script", 50, Some(5))];
            && Depths(100, us, owners, "addr") == [0, 51]
            && Depth(100, us, owners, "addr") == 51 && !Least(51, Depths(100, us, owners, "addr"))
  {
    var owners := map["script" := "addr"];
    var above, below := Unspent("t", "script", 101, Some(5)), Unspent("u", "script", 50, Some(5));
    var us := [above, below];
    assert us[..1] == [above] && [above][..0] == [];
    assert Depths(100, [above], owners, "addr") == [0] && Depth(100, [above], owners, "addr") == 0;
    assert [0, 51][0] == 0;
  }

  function OneScript(addr: string): Option<string> { Some("script") }

  /** Five satoshis to an address asked about twice: the balance is five, the deposits
      add up to ten. */
  lemma AskedTwiceExample()
    ensures var us, addrs, d := [Unspent("t", "script", 50, Some(5))], ["addr", "addr"], Deposit("t", 5);
            var owners, groups: Groups := map["script" := "addr"], map["addr" := map["t" := 5]];
            && Owners(OneScript, addrs) == Some(owners) && AllPositive(us, owners)
            && Balanced(map["addr" := 5], us, owners, addrs)
            && Grouping(groups, us, owners, addrs) && Listing(map["addr" := [d, d]], groups, addrs)
            && SumDeposits([d, d]) == 10
  {
    var u, addrs, d := Unspent("t", "script", 50, Some(5)), ["addr", "addr"], Deposit("t", 5);
    var owners, groups: Groups := map["script" := "addr"], map["addr" := map["t" := 5]];
    assert [u][..0] == [] && addrs[..1] == ["addr"] && ["addr"][..0] == [] && [d, d][..1] == [d] && [d][..0] == [];
    assert Owners(OneScript, ["addr"]) == Some(owners);
    assert owners["script" := "addr"] == owners && Owners(OneScript, addrs) == Some(owners);
    assert addrs[0] == "addr";
    assert Asked(addrs) == {"addr"};
    assert Pays([u][0], owners, "addr");
    assert Txids([u], owners, "addr") == {"t"};
    assert SumDeposits([d]) == 5;
    WrapExact(5);
    assert Count(["addr"], "addr") == 1 && Count(addrs, "addr") == 2;
    forall t: string ensures Occurrences([d, d], t) == if t == "t" then 2 else 0 {
      assert Occurrences([d], t) == if t == "t" then 1 else 0;
    }
    assert Lists([d, d], groups["addr"], 2);
  }

  /** The depth counts the blocks from the output's to the tip, both included, and is 0
      above the tip, as long as the difference of the heights fits int64. Farther below,
      it wraps to 0, and farther above, to the difference from 2^64. */
  lemma ConfirmationsAre(height: int64, u: Unspent)
    ensures var d := height - u.height + 1;
            Confirmations(height, u) ==
            if 0 < d < TWO_63 then d else if d < -TWO_63 then d + TWO_64 else 0
  {
    var d := height - u.height + 1;
    WrapExact(d);
    if d >= TWO_63 {
      WrapShift(d - TWO_64, 1);
      WrapExact(d - TWO_64);
    } else if d < -TWO_63 {
      WrapShift(d + TWO_64, -1);
      WrapExact(d + TWO_64);
    }
  }

  /** So 0 means an output above the tip, when nothing wraps. */
  lemma AboveTipIff(height: int64, u: Unspent)
    ensures var d := height - u.height + 1;
            && (Confirmations(height, u) == 0 <==> -TWO_63 <= d <= 0 || d >= TWO_63)
            && (-TWO_63 <= d < TWO_63 ==> (Confirmations(height, u) == 0 <==> u.height > height))
  {
    hide Confirmations;
    ConfirmationsAre(height, u);
  }
}
