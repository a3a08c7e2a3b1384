/** Notes on payments (notes.service.ts): one note per transaction, and the e-mails it sends. */
module FundingNotes {
  import opened Prelude
  import opened TokenAllocation
  import opened Payout

  datatype Note = Note(transactionHash: string, vaultId: string, userId: string, note: Option<string>)

  datatype FundedVault = FundedVault(ownerEmail: string, roles: seq<Role>, fee: nat)

  /** What the chain tells of a transaction. The distributor's name fails to load as the number 0,
      on which `split` throws. */
  datatype Transaction = NoReceipt | NoName | Distribution(distributionName: string, amount: nat)

  datatype NoteError =
    | NoteAlreadyExists | VaultNotFound | NoTransactionReceipt | VaultIdNotFound | VaultIdsNotMatch
    | Crashed | MailsFailed

  datatype Amount = Gross(micros: nat) | Received(cents: nat)

  datatype Mail = Mail(email: string, amount: Amount)

  datatype Request = Request(userId: string, transactionHash: string, vaultId: string, note: Option<string>)

  // ---------------------------------------------------------------- the name carries the vault id

  /** `split(' ').at(-1)` */
  function LastWord(s: string): string {
    if s == "" || Last(s) == ' ' then "" else LastWord(s[..|s| - 1]) + [Last(s)]
  }

  /** The name that a creation transaction gives the distribution (creator-handler.service.ts). */
  function DistributionName(projectName: string, vaultId: string): string { projectName + " " + vaultId }

  /** The id comes back out of the name, whatever the project is called, when it has no space itself. */
  lemma {:induction false} NameRoundTrip(projectName: string, vaultId: string)
    requires ' ' !in vaultId
    ensures LastWord(DistributionName(projectName, vaultId)) == vaultId
  {
    var name := DistributionName(projectName, vaultId);
    if vaultId != "" {
      var shorter := vaultId[..|vaultId| - 1];
      NameRoundTrip(projectName, shorter);
      assert name[..|name| - 1] == DistributionName(projectName, shorter);
      assert Last(name) == Last(vaultId) && Last(vaultId) in vaultId;
      assert vaultId == shorter + [Last(vaultId)];
    }
  }

  // ---------------------------------------------------------------- the e-mails

  function ToEach(emails: seq<string>, amount: Amount): (r: seq<Mail>)
    ensures |r| == |emails|
  {
    seq(|emails|, i requires 0 <= i < |emails| => Mail(emails[i], amount))
  }

  function RoleMails(roles: seq<Role>, amount: nat, fee: nat): seq<Mail> {
    if roles == [] then []
    else RoleMails(roles[..|roles| - 1], amount, fee) +
         ToEach(Last(roles).emails, Received(ReceivedAmount(amount, fee, Last(roles).sharePercentage)))
  }

  function MailsFor(vault: FundedVault, amount: nat): seq<Mail> {
    [Mail(vault.ownerEmail, Gross(amount))] + RoleMails(vault.roles, amount, vault.fee)
  }

  /** Each email of each role gets that role's amount; the mails are in the order in which tokens are
      numbered, and there are no others. */
  lemma {:induction false} MailOfEmail(roles: seq<Role>, amount: nat, fee: nat, i: nat, j: nat)
    requires i < |roles| && j < |roles[i].emails|
    ensures |RoleMails(roles, amount, fee)| == |AllEmails(roles)|
    ensures Offset(roles, i) + j < |RoleMails(roles, amount, fee)|
    ensures RoleMails(roles, amount, fee)[Offset(roles, i) + j] ==
      Mail(roles[i].emails[j], Received(ReceivedAmount(amount, fee, roles[i].sharePercentage)))
  {
    hide ReceivedAmount;
    var n := |roles| - 1;
    MailsPerEmail(roles, amount, fee);
    MailsPerEmail(roles[..n], amount, fee);
    AllEmailsLength(roles[..n]);
    OffsetOfPrefix(roles, n, n);
    OffsetOfPrefix(roles, n, i);
    TokenOfEmail(roles, i, j);
    if i < n { MailOfEmail(roles[..n], amount, fee, i, j); }
  }

  /** Altogether: the owner is told the gross amount that was paid, first and once, and everybody else only what
      his role received. */
  lemma {:induction false} OnlyOwnerIsToldGross(vault: FundedVault, amount: nat, k: nat)
    requires k < |MailsFor(vault, amount)|
    ensures |MailsFor(vault, amount)| == 1 + |AllEmails(vault.roles)|
    ensures var mail := MailsFor(vault, amount)[k];
      && (mail.amount.Gross? <==> k == 0)
      && (k == 0 ==> mail.email == vault.ownerEmail && mail.amount.micros == amount)
      && (k > 0 ==> mail.email == AllEmails(vault.roles)[k - 1])
  {
    MailsPerEmail(vault.roles, amount, vault.fee);
    if k > 0 {
      var i, j := EmailOfToken(vault.roles, k - 1);
      MailOfEmail(vault.roles, amount, vault.fee, i, j);
      TokenOfEmail(vault.roles, i, j);
    }
  }

  lemma {:induction false} MailsPerEmail(roles: seq<Role>, amount: nat, fee: nat)
    ensures |RoleMails(roles, amount, fee)| == |AllEmails(roles)|
  {
    hide ReceivedAmount;
    if roles != [] { MailsPerEmail(roles[..|roles| - 1], amount, fee); }
  }

  /** The cents that all mails together tell of. */
  function CentsTold(mails: seq<Mail>): nat {
    if mails == [] then 0
    else CentsTold(mails[..|mails| - 1]) + if Last(mails).amount.Received? then Last(mails).amount.cents else 0
  }

  lemma {:induction false} CentsToldConcat(mails: seq<Mail>, more: seq<Mail>)
    ensures CentsTold(mails + more) == CentsTold(mails) + CentsTold(more)
  {
    if more == [] {
      assert mails + more == mails;
    } else {
      CentsToldConcat(mails, more[..|more| - 1]);
      assert (mails + more)[..|mails + more| - 1] == mails + more[..|more| - 1];
    }
  }

  /** When every role has one email, what the role mails tell of adds up to the net payment, up to
      half a cent per role. */
  lemma {:induction false} MailsAddUp(roles: seq<Role>, amount: nat, fee: nat)
    requires forall r :: r in roles ==> |r.emails| == 1
    ensures CentsTold(RoleMails(roles, amount, fee)) == TotalCents(OriginalAmount(amount, fee), roles)
    ensures TotalShares(roles) == WHOLE ==>
      var original := OriginalAmount(amount, fee);
      original - 5_000 * |roles| < CentsTold(RoleMails(roles, amount, fee)) * 10_000 <= original + 5_000 * |roles|
  {
    if roles != [] {
      var before := roles[..|roles| - 1];
      MailsAddUp(before, amount, fee);
      var told := Received(ReceivedAmount(amount, fee, Last(roles).sharePercentage));
      CentsToldConcat(RoleMails(before, amount, fee), ToEach(Last(roles).emails, told));
      assert Last(roles) in roles;
      assert ToEach(Last(roles).emails, told) == [Mail(Last(roles).emails[0], told)];
      assert CentsTold([Mail(Last(roles).emails[0], told)]) == told.cents;
    }
    if TotalShares(roles) == WHOLE { DisplayedCents(amount, fee, roles); }
  }

  // ---------------------------------------------------------------- requests

  predicate HasNote(notes: seq<Note>, transactionHash: string) {
    exists k :: 0 <= k < |notes| && notes[k].transactionHash == transactionHash
  }

  /** The checks of createFundingNote, in order. */
  function Refusal(notes: seq<Note>, vaults: map<string, FundedVault>, request: Request,
                   transaction: Transaction): Option<NoteError> {
    if HasNote(notes, request.transactionHash) then Some(NoteAlreadyExists)
    else if request.vaultId !in vaults then Some(NoteError.VaultNotFound)
    else match transaction
      case NoReceipt => Some(NoTransactionReceipt)
      case NoName => Some(Crashed)
      case Distribution(name, _) =>
        if LastWord(name) == "" then Some(VaultIdNotFound)
        else if LastWord(name) != request.vaultId then Some(VaultIdsNotMatch)
        else None
  }

  ghost predicate OneNotePerTransaction(notes: seq<Note>) {
    forall j, k :: 0 <= j < k < |notes| ==> notes[j].transactionHash != notes[k].transactionHash
  }

  /** The mails that get through when those at the positions in `fails` are rejected. All are sent at
      once, so one that fails does not hold back the others. */
  function Delivered(mails: seq<Mail>, fails: set<nat>): seq<Mail> {
    if mails == [] then []
    else Delivered(mails[..|mails| - 1], fails) + if |mails| - 1 in fails then [] else [Last(mails)]
  }

  predicate AnyFails(mails: seq<Mail>, fails: set<nat>) {
    exists k :: 0 <= k < |mails| && k in fails
  }

  /** The note's call answers without an error exactly if everybody got his mail. */
  lemma {:induction false} AllDelivered(mails: seq<Mail>, fails: set<nat>)
    ensures |Delivered(mails, fails)| <= |mails|
    ensures Delivered(mails, fails) == mails <==> !AnyFails(mails, fails)
  {
    if mails != [] {
      var before := mails[..|mails| - 1];
      AllDelivered(before, fails);
      assert mails == before + [Last(mails)];
      if AnyFails(mails, fails) && |mails| - 1 !in fails {
        assert AnyFails(before, fails);
        assert Delivered(mails, fails)[..|Delivered(mails, fails)| - 1] == Delivered(before, fails);
      }
    }
  }

  datatype Books = Books(notes: seq<Note>, mails: seq<Mail>)

  /** One call of createFundingNote, with what the chain, the vault table and the mail service answer. */
  datatype Call = Call(request: Request, transaction: Transaction, vaults: map<string, FundedVault>, fails: set<nat>)

  function Noted(request: Request): Note {
    Note(request.transactionHash, request.vaultId, request.userId, request.note)
  }

  /** The note is written first, so it stays when mails fail afterwards. */
  function Serve(b: Books, c: Call): (Books, Option<NoteError>) {
    var refusal := Refusal(b.notes, c.vaults, c.request, c.transaction);
    if refusal.Some? then (b, refusal)
    else
      var mails := MailsFor(c.vaults[c.request.vaultId], c.transaction.amount);
      (Books(b.notes + [Noted(c.request)], b.mails + Delivered(mails, c.fails)),
       if AnyFails(mails, c.fails) then Some(MailsFailed) else None)
  }

  /** Which call fails how: the first check that does not hold decides, and with all of them the note is there. */
  lemma {:induction false} ErrorsMean(b: Books, c: Call)
    ensures var error := Serve(b, c).1;
      var noted, known := HasNote(b.notes, c.request.transactionHash), c.request.vaultId in c.vaults;
      var loaded := !noted && known && c.transaction.Distribution?;
      && (error == Some(NoteAlreadyExists) <==> noted)
      && (error == Some(NoteError.VaultNotFound) <==> !noted && !known)
      && (error == Some(NoTransactionReceipt) <==> !noted && known && c.transaction.NoReceipt?)
      && (error == Some(Crashed) <==> !noted && known && c.transaction.NoName?)
      && (error == Some(VaultIdNotFound) <==> loaded && LastWord(c.transaction.distributionName) == "")
      && (error == Some(VaultIdsNotMatch) <==>
            loaded && LastWord(c.transaction.distributionName) !in ["", c.request.vaultId])
      && (error == Some(MailsFailed) ==>
            |Serve(b, c).0.mails| < |b.mails| + 1 + |AllEmails(c.vaults[c.request.vaultId].roles)|)
  {
    if Refusal(b.notes, c.vaults, c.request, c.transaction).None? {
      var vault := c.vaults[c.request.vaultId];
      AllDelivered(MailsFor(vault, c.transaction.amount), c.fails);
      MailsPerEmail(vault.roles, c.transaction.amount, vault.fee);
      SomeMissing(MailsFor(vault, c.transaction.amount), c.fails);
    }
  }

  lemma {:induction false} SomeMissing(mails: seq<Mail>, fails: set<nat>)
    ensures |Delivered(mails, fails)| <= |mails|
    ensures AnyFails(mails, fails) <==> |Delivered(mails, fails)| < |mails|
  {
    if mails != [] {
      SomeMissing(mails[..|mails| - 1], fails);
      if AnyFails(mails, fails) && |mails| - 1 !in fails { assert AnyFails(mails[..|mails| - 1], fails); }
    }
  }

  /** The only note that a call adds is its own, and no note or mail is ever lost. */
  lemma {:induction false} BooksGrow(b: Books, c: Call)
    ensures var (later, error) := Serve(b, c);
      && b.mails <= later.mails
      && (error.None? || error == Some(MailsFailed) ==>
            later.notes ==
              b.notes + [Note(c.request.transactionHash, c.request.vaultId, c.request.userId, c.request.note)])
      && (error.Some? && error != Some(MailsFailed) ==> later.notes == b.notes)
      && (later.notes == b.notes ==> later.mails == b.mails)
      && (error.None? ==> |later.mails| == |b.mails| + 1 + |AllEmails(c.vaults[c.request.vaultId].roles)|)
  {
    if Refusal(b.notes, c.vaults, c.request, c.transaction).None? {
      var vault := c.vaults[c.request.vaultId];
      AllDelivered(MailsFor(vault, c.transaction.amount), c.fails);
      MailsPerEmail(vault.roles, c.transaction.amount, vault.fee);
    }
  }

  function ServeAll(b: Books, cs: seq<Call>): Books {
    if cs == [] then b else Serve(ServeAll(b, cs[..|cs| - 1]), Last(cs)).0
  }

  lemma {:induction false} NotesStay(b: Books, cs: seq<Call>)
    ensures b.notes <= ServeAll(b, cs).notes
  {
    if cs != [] { NotesStay(b, cs[..|cs| - 1]); }
  }

  /** A transaction has one chance: once it has its note, whether its mails got through or not, further
      calls for it have no effect, so a mail that failed is never sent again. */
  lemma {:induction false} NoSecondChance(b: Books, cs: seq<Call>, transactionHash: string)
    requires HasNote(b.notes, transactionHash)
    ensures ServeAll(b, cs) == ServeAll(b, Filter(cs, (c: Call) => c.request.transactionHash != transactionHash))
    ensures forall c: Call :: c.request.transactionHash == transactionHash ==>
      Serve(ServeAll(b, cs), c) == (ServeAll(b, cs), Some(NoteAlreadyExists))
  {
    NotesStay(b, cs);
    var k :| 0 <= k < |b.notes| && b.notes[k].transactionHash == transactionHash;
    assert ServeAll(b, cs).notes[k] == b.notes[k];
    if cs != [] {
      var others := (c: Call) => c.request.transactionHash != transactionHash;
      var before := cs[..|cs| - 1];
      NoSecondChance(b, before, transactionHash);
      FilterSnoc(cs, others);
      var kept := Filter(before, others);
      if others(Last(cs)) { assert (kept + [Last(cs)])[..|kept|] == kept; }
    }
  }

  class NotesService {
    var notes: seq<Note>
    var mails: seq<Mail>
    var vaults: map<string, FundedVault>

    ghost predicate Valid() reads this {
      OneNotePerTransaction(notes)
    }

    constructor (vaults: map<string, FundedVault>)
      ensures Valid() && notes == [] && mails == [] && this.vaults == vaults
    {
      notes, mails := [], [];
      this.vaults := vaults;
    }

    method CheckIfNoteExists(transactionHash: string) returns (found: bool)
      ensures found <==> HasNote(notes, transactionHash)
    {
      found := false;
      for k := 0 to |notes|
        invariant found <==> exists j :: 0 <= j < k && notes[j].transactionHash == transactionHash
      {
        if notes[k].transactionHash == transactionHash { found := true; }
      }
    }

    /** Promise.all: every mail is sent, and one that is rejected makes the whole call throw. */
    method HandleSendEmails(vault: FundedVault, amount: nat, fails: set<nat>) returns (threw: bool)
      modifies this`mails
      ensures mails == old(mails) + Delivered(MailsFor(vault, amount), fails)
      ensures threw <==> AnyFails(MailsFor(vault, amount), fails)
    {
      var promises := [Mail(vault.ownerEmail, Gross(amount))];
      for i := 0 to |vault.roles|
        invariant promises == [Mail(vault.ownerEmail, Gross(amount))] + RoleMails(vault.roles[..i], amount, vault.fee)
      {
        var role := vault.roles[i];
        var receivedAmount := ReceivedAmount(amount, vault.fee, role.sharePercentage);
        ghost var before := promises;
        for j := 0 to |role.emails|
          invariant promises == before + ToEach(role.emails[..j], Received(receivedAmount))
        {
          promises := promises + [Mail(role.emails[j], Received(receivedAmount))];
        }
        assert role.emails[..|role.emails|] == role.emails;
        assert vault.roles[..i + 1][..i] == vault.roles[..i];
      }
      assert vault.roles[..|vault.roles|] == vault.roles;
      threw := SettleAll(promises, fails);
    }

    method SettleAll(promises: seq<Mail>, fails: set<nat>) returns (threw: bool)
      modifies this`mails
      ensures mails == old(mails) + Delivered(promises, fails)
      ensures threw <==> AnyFails(promises, fails)
    {
      threw := false;
      for k := 0 to |promises|
        invariant mails == old(mails) + Delivered(promises[..k], fails)
        invariant threw <==> AnyFails(promises[..k], fails)
      {
        assert promises[..k + 1][..k] == promises[..k];
        if k in fails { threw := true; } else { mails := mails + [promises[k]]; }
      }
      assert promises[..|promises|] == promises;
    }

    /** Either one of the checks refuses and nothing happens, or the transaction gets its only note,
        and the vault's owner and share holders get the mails that do not fail. */
    method CreateFundingNote(request: Request, transaction: Transaction, fails: set<nat>)
      returns (error: Option<NoteError>)
      requires Valid()
      modifies this`notes, this`mails
      ensures Valid()
      ensures (Books(notes, mails), error) == Serve(old(Books(notes, mails)), Call(request, transaction, vaults, fails))
      ensures error.None? ==>
        && notes == old(notes) + [Noted(request)]
        && transaction.Distribution? && mails == old(mails) + MailsFor(vaults[request.vaultId], transaction.amount)
    {
      var exists_ := CheckIfNoteExists(request.transactionHash);
      if exists_ { return Some(NoteAlreadyExists); }
      if request.vaultId !in vaults { return Some(NoteError.VaultNotFound); }
      match transaction
      case NoReceipt => return Some(NoTransactionReceipt);
      case NoName => return Some(Crashed);
      case Distribution(distributionName, amount) =>
        var vaultIdInTransaction := LastWord(distributionName);
        if vaultIdInTransaction == "" { return Some(VaultIdNotFound); }
        if vaultIdInTransaction != request.vaultId { return Some(VaultIdsNotMatch); }
        notes := notes + [Note(request.transactionHash, request.vaultId, request.userId, request.note)];
        AllDelivered(MailsFor(vaults[request.vaultId], amount), fails);
        var threw := HandleSendEmails(vaults[request.vaultId], amount, fails);
        error := if threw then Some(MailsFailed) else None;
    }
  }

  /** A payment to a vault can be noted exactly by naming the vault it was made to, and only once. */
  lemma {:induction false} OwnPaymentIsNotable(notes: seq<Note>, vaults: map<string, FundedVault>, request: Request,
                                               projectName: string, paidVaultId: string, amount: nat)
    requires ' ' !in paidVaultId && paidVaultId != ""
    ensures Refusal(notes, vaults, request, Distribution(DistributionName(projectName, paidVaultId), amount)).None? <==>
      !HasNote(notes, request.transactionHash) && request.vaultId in vaults && request.vaultId == paidVaultId
  {
    NameRoundTrip(projectName, paidVaultId);
  }
}
