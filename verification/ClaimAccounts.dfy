/** Claim accounts of share holders (shareholders-claim-accounts.service.ts): one row per token, with
    an encrypted private key whose two halves are handed out or erased separately.

    Cryptography is symbolic. A wallet's address is a one-to-one function of its private key, and a
    ciphertext opens with the key it was sealed with and with no other. */
module ClaimAccounts {
  import opened Prelude

  type Secret = nat

  datatype Address = Wallet(secret: Secret) | Contract(number: nat)

  datatype Ciphertext = Sealed(plain: Secret, sealedWith: nat)

  /** AES-GCM: the wrong key material makes `final` throw. */
  function Decrypt(c: Ciphertext, key: nat): Option<Secret> {
    if c.sealedWith == key then Some(c.plain) else None
  }

  /** `key` stands for iv, secretKey and authTag, which are always written and erased together. */
  datatype Account = Account(
    id: nat, userEmail: string, vaultId: string, tokenId: nat, address: Address,
    encrypted: Option<Ciphertext>, key: Option<nat>)

  /** The row for the n-th draw of fresh randomness: row id, wallet and sealing key are all new. */
  function NewAccount(email: string, vaultId: string, tokenId: nat, n: nat): Account {
    Account(n, email, vaultId, tokenId, Wallet(n), Some(Sealed(n, n)), Some(n))
  }

  /** Stages of a row. They are numbered in the only order in which a row passes through them. */
  function Stage(a: Account): nat {
    if a.encrypted.Some? then 0 else if a.key.Some? then 1 else 2
  }

  /** DynamoDB's update removes the attributes that the written object omits. */
  function HandedOut(a: Account): Account { a.(encrypted := None) }

  function Erased(a: Account): Account { a.(encrypted := None, key := None) }

  /** First row of the vault, in index order, that satisfies the test; |rows| when there is none. */
  function FindIn(rows: seq<Account>, vaultId: string, p: Account -> bool): (i: nat)
    ensures i <= |rows|
    ensures i < |rows| ==> rows[i].vaultId == vaultId && p(rows[i])
    ensures forall j :: 0 <= j < i ==> !(rows[j].vaultId == vaultId && p(rows[j]))
  {
    FindIndex(rows, (a: Account) => a.vaultId == vaultId && p(a))
  }

  function FindByEmail(rows: seq<Account>, vaultId: string, email: string): nat {
    FindIn(rows, vaultId, (a: Account) => a.userEmail == email)
  }

  function FindByAddress(rows: seq<Account>, vaultId: string, address: Address): nat {
    FindIn(rows, vaultId, (a: Account) => a.address == address)
  }

  /** removeShareholderClaimAccountPrivateKey */
  function EraseByEmail(rows: seq<Account>, vaultId: string, email: string): (r: seq<Account>)
    ensures |r| == |rows|
  {
    var i := FindByEmail(rows, vaultId, email);
    if i < |rows| then rows[i := Erased(rows[i])] else rows
  }

  /** removeShareholderClaimAccountInfoByAddress */
  function EraseByAddress(rows: seq<Account>, vaultId: string, address: Address): seq<Account> {
    var i := FindByAddress(rows, vaultId, address);
    if i < |rows| then rows[i := Erased(rows[i])] else rows
  }

  /** generatePrivateKeyForShareholderClaimAccount: the ciphertext leaves the row, the key stays. */
  function HandOut(rows: seq<Account>, vaultId: string, email: string): (seq<Account>, Option<Ciphertext>) {
    var i := FindByEmail(rows, vaultId, email);
    if i < |rows| then (rows[i := HandedOut(rows[i])], rows[i].encrypted) else (rows, None)
  }

  /** removePrivateKeyWhenCreationFailed, given the rows found by the query. */
  function EraseEach(rows: seq<Account>, vaultId: string, found: seq<Account>): (r: seq<Account>)
    ensures |r| == |rows|
  {
    if found == [] then rows
    else EraseByEmail(EraseEach(rows, vaultId, found[..|found| - 1]), vaultId, Last(found).userEmail)
  }

  function RowsOf(rows: seq<Account>, vaultId: string): seq<Account> {
    Filter(rows, (a: Account) => a.vaultId == vaultId)
  }

  function EraseVault(rows: seq<Account>, vaultId: string): (r: seq<Account>)
    ensures |r| == |rows|
  {
    EraseEach(rows, vaultId, RowsOf(rows, vaultId))
  }

  // ---------------------------------------------------------------- what a rejection leaves behind

  /** Same rows apart from erased or handed-out material. */
  ghost predicate SameIdentity(rows: seq<Account>, later: seq<Account>) {
    |rows| == |later| && forall i :: 0 <= i < |rows| ==> Erased(rows[i]) == Erased(later[i])
  }

  lemma {:induction false} FindIsStable(rows: seq<Account>, later: seq<Account>, vaultId: string, email: string)
    requires SameIdentity(rows, later)
    ensures FindByEmail(rows, vaultId, email) == FindByEmail(later, vaultId, email)
  {
    var i, j := FindByEmail(rows, vaultId, email), FindByEmail(later, vaultId, email);
    assert i < |rows| ==> Erased(rows[i]) == Erased(later[i]);
    assert j < |rows| ==> Erased(rows[j]) == Erased(later[j]);
  }

  /** The row is the one that a look-up of its own email finds. */
  ghost predicate FirstOfItsEmail(rows: seq<Account>, i: nat)
    requires i < |rows|
  {
    FindByEmail(rows, rows[i].vaultId, rows[i].userEmail) == i
  }

  ghost predicate Mentions(found: seq<Account>, email: string) {
    exists a :: a in found && a.userEmail == email
  }

  lemma {:induction false} EraseEachEffect(rows: seq<Account>, vaultId: string, found: seq<Account>, i: nat)
    requires i < |rows|
    ensures SameIdentity(rows, EraseEach(rows, vaultId, found))
    ensures EraseEach(rows, vaultId, found)[i] ==
      if rows[i].vaultId == vaultId && FirstOfItsEmail(rows, i) && Mentions(found, rows[i].userEmail)
      then Erased(rows[i]) else rows[i]
  {
    if found != [] {
      var before := found[..|found| - 1];
      EraseEachEffect(rows, vaultId, before, i);
      var mid := EraseEach(rows, vaultId, before);
      var email := Last(found).userEmail;
      FindIsStable(rows, mid, vaultId, email);
      assert forall a :: a in found <==> a in before || a == Last(found);
    }
  }

  /** A rejection erases exactly the rows of the vault that are first with their email. */
  lemma {:induction false} EraseVaultEffect(rows: seq<Account>, vaultId: string)
    ensures forall i :: 0 <= i < |rows| ==> EraseVault(rows, vaultId)[i] == AfterRejection(rows, vaultId, i)
  {
    var found := RowsOf(rows, vaultId);
    forall i | 0 <= i < |rows| ensures EraseVault(rows, vaultId)[i] == AfterRejection(rows, vaultId, i) {
      EraseEachEffect(rows, vaultId, found, i);
      FilterMember(rows, (a: Account) => a.vaultId == vaultId, rows[i]);
    }
  }

  ghost function AfterRejection(rows: seq<Account>, vaultId: string, i: nat): Account
    requires i < |rows|
  {
    if rows[i].vaultId == vaultId && FirstOfItsEmail(rows, i) then Erased(rows[i]) else rows[i]
  }

  /** So the keys of a rejected vault are all gone exactly when every row that still held any is the
      first one with its email. A resubmitted vault breaks this: see RejectionCanLeaveKeys. */
  lemma {:induction false} RejectionClearsVault(rows: seq<Account>, vaultId: string)
    ensures var later := EraseVault(rows, vaultId);
      && (forall i :: 0 <= i < |rows| && rows[i].vaultId != vaultId ==> later[i] == rows[i])
      && ((forall i :: 0 <= i < |later| && later[i].vaultId == vaultId ==> Stage(later[i]) == 2) <==>
          (forall i :: 0 <= i < |rows| && rows[i].vaultId == vaultId && Stage(rows[i]) != 2 ==>
             FirstOfItsEmail(rows, i)))
  {
    EraseVaultEffect(rows, vaultId);
    var later := EraseVault(rows, vaultId);
    forall i | 0 <= i < |rows| ensures later[i].vaultId == rows[i].vaultId {}
    if forall i :: 0 <= i < |later| && later[i].vaultId == vaultId ==> Stage(later[i]) == 2 {
      forall i | 0 <= i < |rows| && rows[i].vaultId == vaultId && Stage(rows[i]) != 2 ensures FirstOfItsEmail(rows, i) {
        assert later[i].vaultId == vaultId;
      }
    }
  }

  /** Distinct emails within the vault are enough. */
  ghost predicate DistinctEmails(rows: seq<Account>, vaultId: string) {
    forall i, j :: 0 <= i < j < |rows| && rows[i].vaultId == vaultId && rows[j].vaultId == vaultId ==>
      rows[i].userEmail != rows[j].userEmail
  }

  lemma {:induction false} DistinctEmailsAreFirst(rows: seq<Account>, vaultId: string, i: nat)
    requires DistinctEmails(rows, vaultId) && i < |rows| && rows[i].vaultId == vaultId
    ensures FirstOfItsEmail(rows, i)
  {}

  lemma {:induction false} RejectionClearsDistinct(rows: seq<Account>, vaultId: string)
    requires DistinctEmails(rows, vaultId)
    ensures forall i :: 0 <= i < |rows| && rows[i].vaultId == vaultId ==>
      EraseVault(rows, vaultId)[i] == Erased(rows[i])
  {
    EraseVaultEffect(rows, vaultId);
    forall i | 0 <= i < |rows| && rows[i].vaultId == vaultId ensures FirstOfItsEmail(rows, i) {
      DistinctEmailsAreFirst(rows, vaultId, i);
    }
  }

  /** After a rejected first attempt, a second rejected attempt leaves its new private key in place. */
  lemma {:induction false} RejectionCanLeaveKeys()
    ensures var first := [NewAccount("a@x", "v", 0, 0)];
      var second := EraseVault(first, "v") + [NewAccount("a@x", "v", 0, 1)];
      Stage(EraseVault(second, "v")[1]) == 0
  {
    var first := [NewAccount("a@x", "v", 0, 0)];
    var second := EraseVault(first, "v") + [NewAccount("a@x", "v", 0, 1)];
    EraseVaultEffect(first, "v");
    EraseVaultEffect(second, "v");
    assert FindByEmail(second, "v", "a@x") == 0;
  }

  // ---------------------------------------------------------------- the service

  class ShareholdersClaimAccountsService {
    var rows: seq<Account>
    var drawn: nat  // how often fresh randomness was drawn

    constructor ()
      ensures rows == [] && drawn == 0
    {
      rows, drawn := [], 0;
    }

    method CreateShareholderClaimAccount(email: string, vaultId: string, tokenId: nat) returns (address: Address)
      modifies this
      ensures rows == old(rows) + [NewAccount(email, vaultId, tokenId, old(drawn))]
      ensures drawn == old(drawn) + 1 && address == Wallet(old(drawn))
    {
      address := Wallet(drawn);
      rows := rows + [Account(drawn, email, vaultId, tokenId, address, Some(Sealed(drawn, drawn)), Some(drawn))];
      drawn := drawn + 1;
    }

    method QueryByVault(vaultId: string) returns (found: seq<Account>)
      ensures found == RowsOf(rows, vaultId)
    {
      found := [];
      for i := 0 to |rows|
        invariant found == RowsOf(rows[..i], vaultId)
      {
        assert rows[..i + 1] == rows[..i] + [rows[i]];
        FilterConcat(rows[..i], [rows[i]], (a: Account) => a.vaultId == vaultId);
        if rows[i].vaultId == vaultId { found := found + [rows[i]]; }
      }
      assert rows[..|rows|] == rows;
    }

    /** query, then Array.find by email: the position of the row, or the table's length. */
    method Locate(vaultId: string, email: string) returns (i: nat)
      ensures i == FindByEmail(rows, vaultId, email)
    {
      i := 0;
      while i < |rows| && !(rows[i].vaultId == vaultId && rows[i].userEmail == email)
        invariant 0 <= i <= |rows|
        invariant forall j :: 0 <= j < i ==> !(rows[j].vaultId == vaultId && rows[j].userEmail == email)
      {
        i := i + 1;
      }
    }

    method RemoveShareholderClaimAccountInfoByAddress(tokenAddress: Address, vaultId: string)
      modifies this`rows
      ensures rows == EraseByAddress(old(rows), vaultId, tokenAddress)
    {
      var i := 0;
      while i < |rows| && !(rows[i].vaultId == vaultId && rows[i].address == tokenAddress)
        invariant 0 <= i <= |rows|
        invariant forall j :: 0 <= j < i ==> !(rows[j].vaultId == vaultId && rows[j].address == tokenAddress)
      {
        i := i + 1;
      }
      if i < |rows| {
        rows := rows[i := rows[i].(encrypted := None, key := None)];
      }
    }

    method RemoveShareholderClaimAccountPrivateKey(email: string, vaultId: string)
      modifies this`rows
      ensures rows == EraseByEmail(old(rows), vaultId, email)
    {
      var i := Locate(vaultId, email);
      if i < |rows| {
        rows := rows[i := rows[i].(encrypted := None, key := None)];
      }
    }

    method GeneratePrivateKeyForShareholderClaimAccount(email: string, vaultId: string)
      returns (encrypted: Option<Ciphertext>)
      modifies this`rows
      ensures (rows, encrypted) == HandOut(old(rows), vaultId, email)
    {
      encrypted := None;
      var i := Locate(vaultId, email);
      if i < |rows| {
        encrypted := rows[i].encrypted;
        rows := rows[i := rows[i].(encrypted := None)];
      }
    }

    /** removePrivateKeyWhenCreationFailed of creator-handler.service.ts */
    method RemovePrivateKeyWhenCreationFailed(vaultId: string)
      modifies this`rows
      ensures rows == EraseVault(old(rows), vaultId)
      ensures forall i :: 0 <= i < |rows| ==> rows[i] == AfterRejection(old(rows), vaultId, i)
    {
      var found := QueryByVault(vaultId);
      for k := 0 to |found|
        invariant rows == EraseEach(old(rows), vaultId, found[..k])
      {
        assert found[..k + 1][..k] == found[..k];
        RemoveShareholderClaimAccountPrivateKey(found[k].userEmail, vaultId);
      }
      assert found[..|found|] == found;
      EraseVaultEffect(old(rows), vaultId);
    }
  }
}
