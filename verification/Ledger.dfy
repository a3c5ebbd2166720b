/** The payee client's ledger, after the in-memory client that fixes its contract: balances
    keyed by sender and work id, credited by ProcessPayment and debited by DebitBalance. */
module Ledger {
  import opened Go
  import Codecs

  datatype Account = Account(sender: Bytes, workID: string)

  const ZERO_DIGEST: Bytes := seq(32, i => 0)

  type Digest = d: Bytes | |d| == 32 witness ZERO_DIGEST

  /** SHA-256 is assumed to be some function from blobs to 32-byte digests. */
  type Hash = Bytes -> Digest

  function DeriveWorkID(hash: Hash, blob: Bytes): (id: string)
    ensures |id| == 64
  {
    Codecs.HexEncode(hash(blob))
  }

  function BalanceKey(a: Account): string {
    StringOf(a.sender) + "::" + a.workID
  }

  /** Work ids of lengths n and m never share a ledger key across different accounts. */
  ghost predicate KeysSeparate(n: nat, m: nat) {
    forall a: Account, b: Account :: |a.workID| == n && |b.workID| == m && BalanceKey(a) == BalanceKey(b) ==> a == b
  }

  lemma SameLengthSeparates(a: Account, b: Account)
    requires |a.workID| == |b.workID|
    ensures BalanceKey(a) == BalanceKey(b) <==> a == b
  {
    if BalanceKey(a) == BalanceKey(b) {
      var n := |a.sender|;
      var s := BalanceKey(a);
      assert |b.sender| == n;
      assert s[..n] == StringOf(a.sender) == StringOf(b.sender);
      assert s[n + 2..] == a.workID == b.workID;
      StringOfInjective(a.sender, b.sender);
    }
  }

  const COLON: byte := 58

  /** Two accounts with work ids of lengths n < m that land on one key. */
  lemma DifferentLengthsCollide(n: nat, m: nat) returns (a: Account, b: Account)
    requires n < m
    ensures |a.workID| == n && |b.workID| == m && a != b && BalanceKey(a) == BalanceKey(b)
  {
    var w := seq(n, i => 'w');
    var extra := m - n;
    a := Account(seq(extra, i => COLON), w);
    b := Account([], seq(extra, i => ':') + w);
    assert StringOf(a.sender) == seq(extra, i => ':');
    assert StringOf(b.sender) == "";
    assert seq(extra, i => ':') + "::" == "::" + seq(extra, i => ':');
  }

  /** The key is collision-free over two work-id lengths if and only if they are equal; the
      64-character ids of DeriveWorkID are one length. */
  lemma KeysSeparateIff(n: nat, m: nat)
    ensures KeysSeparate(n, m) <==> n == m
  {
    if n == m {
      forall a: Account, b: Account | |a.workID| == n && |b.workID| == m && BalanceKey(a) == BalanceKey(b)
        ensures a == b
      {
        SameLengthSeparates(a, b);
      }
    } else if n < m {
      var a, b := DifferentLengthsCollide(n, m);
    } else {
      var b, a := DifferentLengthsCollide(m, n);
      assert BalanceKey(a) == BalanceKey(b);
    }
  }

  function Balance(balances: map<string, int>, a: Account): int {
    if BalanceKey(a) in balances then balances[BalanceKey(a)] else 0
  }

  function Adjust(balances: map<string, int>, a: Account, delta: int): map<string, int> {
    balances[BalanceKey(a) := Balance(balances, a) + delta]
  }

  lemma AdjustTouchesOneAccount(balances: map<string, int>, a: Account, delta: int, other: Account)
    requires |a.workID| == |other.workID|
    ensures Balance(Adjust(balances, a, delta), other) == Balance(balances, other) + if a == other then delta else 0
  {
    SameLengthSeparates(a, other);
  }

  /** One call as the client receives it. */
  datatype Call =
    | OpenCall(workID: string, capability: string, offering: string, price: int, workUnit: string)
    | ProcessCall(workID: string)
    | DebitCall(account: Account, units: int)
    | CloseCall(account: Account)

  /** The mutex-guarded client: each method is one atomic step on the fields. The error fields
      are the client's knobs; an RPC that fails leaves the balances as they were. */
  class Fake {
    var openSessionError: bool
    var processPaymentError: bool
    var debitBalanceError: bool
    var closeSessionError: bool
    var creditPerCall: int
    var debitWeiPerWorkUnit: int
    var senderAddress: Bytes
    var balances: map<string, int>
    /** The calls received, failed ones included. */
    var calls: seq<Call>

    constructor ()
      ensures balances == map[] && calls == [] && creditPerCall == 1_000_000_000 && debitWeiPerWorkUnit == 1
      ensures !openSessionError && !processPaymentError && !debitBalanceError && !closeSessionError
    {
      openSessionError, processPaymentError, debitBalanceError, closeSessionError := false, false, false, false;
      creditPerCall := 1_000_000_000;
      debitWeiPerWorkUnit := 1;
      senderAddress := [0x0a, 0x0b, 0x0c, 0x0d, 0x0e, 0x0f, 0x10, 0x11, 0x12, 0x13,
                        0x14, 0x15, 0x16, 0x17, 0x18, 0x19, 0x1a, 0x1b, 0x1c, 0x1d];
      balances := map[];
      calls := [];
    }

    method OpenSession(workID: string, capability: string, offering: string, price: int, workUnit: string)
      returns (ok: bool)
      modifies this`calls
      ensures ok == !openSessionError
      ensures calls == old(calls) + [OpenCall(workID, capability, offering, price, workUnit)]
    {
      calls := calls + [OpenCall(workID, capability, offering, price, workUnit)];
      ok := !openSessionError;
    }

    method ProcessPayment(workID: string) returns (ok: bool, sender: Bytes, credited: int)
      modifies this`balances, this`calls
      ensures calls == old(calls) + [ProcessCall(workID)]
      ensures ok == !processPaymentError
      ensures sender == senderAddress && credited == creditPerCall
      ensures balances == if ok then Adjust(old(balances), Account(sender, workID), credited) else old(balances)
    {
      calls := calls + [ProcessCall(workID)];
      sender, credited := senderAddress, creditPerCall;
      if processPaymentError {
        return false, sender, credited;
      }
      var key := BalanceKey(Account(senderAddress, workID));
      var bal := 0;
      if key in balances {
        bal := balances[key];
      }
      balances := balances[key := bal + creditPerCall];
      ok := true;
    }

    method DebitBalance(sender: Bytes, workID: string, workUnits: int64) returns (ok: bool, balance: int)
      modifies this`balances, this`calls
      ensures calls == old(calls) + [DebitCall(Account(sender, workID), workUnits)]
      ensures ok == !debitBalanceError
      ensures balances == if ok then Adjust(old(balances), Account(sender, workID), -(debitWeiPerWorkUnit * workUnits))
                          else old(balances)
      ensures ok ==> balance == Balance(balances, Account(sender, workID))
    {
      calls := calls + [DebitCall(Account(sender, workID), workUnits)];
      if debitBalanceError {
        return false, 0;
      }
      var key := BalanceKey(Account(sender, workID));
      balance := 0;
      if key in balances {
        balance := balances[key];
      }
      balance := balance - debitWeiPerWorkUnit * workUnits;
      balances := balances[key := balance];
      ok := true;
    }

    method CloseSession(sender: Bytes, workID: string) returns (ok: bool)
      modifies this`calls
      ensures ok == !closeSessionError
      ensures calls == old(calls) + [CloseCall(Account(sender, workID))]
    {
      calls := calls + [CloseCall(Account(sender, workID))];
      ok := !closeSessionError;
    }
  }
}
