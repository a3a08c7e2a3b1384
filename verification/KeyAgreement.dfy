/** The claim accounts over a whole run: how rows move through their stages, which ciphertexts leave,
    and which key a share holder's ciphertext opens (vault.service.ts, signVaultTransaction). */
module KeyAgreement {
  import opened Prelude
  import opened ClaimAccounts
  import opened TokenAllocation
  import opened AddressLinking

  /** An attempt to submit a vault, with the share owners it allocated. One that broke down on the way
      was not `delivered`, and may have allocated only some. `drawn` is how much randomness had been
      drawn before it. */
  datatype Submission = Submission(vaultId: string, owners: seq<ShareOwner>, drawn: nat, delivered: bool)

  /** `Refused` is the null answer; a ciphertext that does not open throws. */
  datatype Signature = Refused | SignedBy(secret: Secret) | Threw

  function SignVaultTransaction(rows: seq<Account>, vaultId: string, kycCompleted: bool, userEmail: string,
                                encrypted: Option<Ciphertext>): Signature {
    var i := FindByEmail(rows, vaultId, userEmail);
    if !kycCompleted || i == |rows| || rows[i].key.None? then Refused
    else if encrypted.None? then Threw
    else match Decrypt(encrypted.value, rows[i].key.value)
      case None => Threw
      case Some(secret) => SignedBy(secret)
  }

  /** Without completed KYC nothing is ever signed, whatever is presented. */
  lemma {:induction false} NoKycNoSignature(rows: seq<Account>, vaultId: string, userEmail: string,
                                            encrypted: Option<Ciphertext>)
    ensures SignVaultTransaction(rows, vaultId, false, userEmail, encrypted) == Refused
  {}

  /** What each row says about the randomness it was made from. */
  ghost predicate RowOk(a: Account, drawn: nat) {
    && a.id < drawn && a.address == Wallet(a.id)
    && (a.encrypted.Some? ==> a.encrypted == Some(Sealed(a.id, a.id)) && a.key.Some?)
    && (a.key.Some? ==> a.key == Some(a.id))
  }

  ghost predicate RowsOk(rows: seq<Account>, drawn: nat) {
    && (forall i :: 0 <= i < |rows| ==> RowOk(rows[i], drawn))
    && (forall i, j :: 0 <= i < j < |rows| ==> rows[i].id < rows[j].id)
  }

  /** The row was made by an attempt that has the row's address as its token's owner. */
  ghost predicate WasAttempted(sent: seq<Submission>, a: Account) {
    exists k :: 0 <= k < |sent| && Submits(sent[k], a)
  }

  ghost predicate WasSubmitted(sent: seq<Submission>, a: Account) {
    exists k :: 0 <= k < |sent| && sent[k].delivered && Submits(sent[k], a)
  }

  predicate Submits(s: Submission, a: Account) {
    s.vaultId == a.vaultId && a.tokenId < |s.owners| && s.owners[a.tokenId] == ShareOwner(a.tokenId, a.address)
  }

  ghost predicate AllAttempted(rows: seq<Account>, sent: seq<Submission>) {
    forall i :: 0 <= i < |rows| ==> WasAttempted(sent, rows[i])
  }

  /** A ciphertext in an invitation came from the row its email leads to, and left that row. */
  ghost predicate MailOk(rows: seq<Account>, m: Invitation) {
    m.encrypted.Some? ==>
      var i := FindByEmail(rows, m.vaultId, m.email);
      i < |rows| && m.encrypted == Some(Sealed(rows[i].id, rows[i].id)) && rows[i].encrypted.None?
  }

  ghost predicate AllMailOk(rows: seq<Account>, mail: seq<Invitation>) {
    forall k :: 0 <= k < |mail| ==> MailOk(rows, mail[k])
  }

  /** No ciphertext is sent twice. */
  ghost predicate SentOnce(mail: seq<Invitation>) {
    forall k, l :: 0 <= k < l < |mail| && mail[k].encrypted.Some? ==> mail[k].encrypted != mail[l].encrypted
  }

  ghost predicate AccountsInv(rows: seq<Account>, drawn: nat, sent: seq<Submission>, mail: seq<Invitation>) {
    RowsOk(rows, drawn) && AllAttempted(rows, sent) && AllMailOk(rows, mail) && SentOnce(mail)
  }

  // ---------------------------------------------------------------- rows only wear out

  /** Each row is as before, handed out, or erased; new rows may follow. */
  ghost predicate WornOut(rows: seq<Account>, later: seq<Account>) {
    |rows| <= |later| && forall i :: 0 <= i < |rows| ==>
      later[i] == rows[i] || later[i] == HandedOut(rows[i]) || later[i] == Erased(rows[i])
  }

  /** The life cycle of a row: full, then key only, then cleared, and nothing else of it changes. */
  lemma {:induction false} WearIsForward(rows: seq<Account>, later: seq<Account>, i: nat)
    requires WornOut(rows, later) && i < |rows|
    ensures Stage(rows[i]) <= Stage(later[i]) && Erased(rows[i]) == Erased(later[i])
    ensures Stage(later[i]) == 0 ==> later[i] == rows[i]
    ensures later[i].key.Some? ==> later[i].key == rows[i].key
  {}

  lemma {:induction false} WearComposes(rows: seq<Account>, mid: seq<Account>, later: seq<Account>)
    requires WornOut(rows, mid) && WornOut(mid, later)
    ensures WornOut(rows, later)
  {
    forall i | 0 <= i < |rows|
      ensures later[i] == rows[i] || later[i] == HandedOut(rows[i]) || later[i] == Erased(rows[i])
    {
      assert later[i] == mid[i] || later[i] == HandedOut(mid[i]) || later[i] == Erased(mid[i]);
    }
  }

  lemma {:induction false} FindSurvives(rows: seq<Account>, later: seq<Account>, vaultId: string, email: string)
    requires WornOut(rows, later) && FindByEmail(rows, vaultId, email) < |rows|
    ensures FindByEmail(later, vaultId, email) == FindByEmail(rows, vaultId, email)
  {
    var i, j := FindByEmail(rows, vaultId, email), FindByEmail(later, vaultId, email);
    assert later[i].userEmail == rows[i].userEmail && later[i].vaultId == rows[i].vaultId;
    assert j < |rows| ==> later[j].userEmail == rows[j].userEmail && later[j].vaultId == rows[j].vaultId;
  }

  /** Wearing out keeps the invariant, when no mail is sent. */
  lemma {:induction false} WearKeepsInv(rows: seq<Account>, later: seq<Account>, drawn: nat, sent: seq<Submission>,
                                        mail: seq<Invitation>)
    requires AccountsInv(rows, drawn, sent, mail) && WornOut(rows, later) && |rows| == |later|
    ensures AccountsInv(later, drawn, sent, mail)
  {
    forall i | 0 <= i < |later| ensures RowOk(later[i], drawn) && WasAttempted(sent, later[i]) {
      assert RowOk(rows[i], drawn) && WasAttempted(sent, rows[i]);
      var k :| 0 <= k < |sent| && Submits(sent[k], rows[i]);
      assert Submits(sent[k], later[i]);
    }
    forall i, j | 0 <= i < j < |later| ensures later[i].id < later[j].id {
      assert rows[i].id < rows[j].id;
    }
    MailSurvives(rows, later, mail);
  }

  lemma {:induction false} MailSurvives(rows: seq<Account>, later: seq<Account>, mail: seq<Invitation>)
    requires AllMailOk(rows, mail) && WornOut(rows, later)
    ensures AllMailOk(later, mail)
  {
    forall k | 0 <= k < |mail| ensures MailOk(later, mail[k]) {
      assert MailOk(rows, mail[k]);
      if mail[k].encrypted.Some? { FindSurvives(rows, later, mail[k].vaultId, mail[k].email); }
    }
  }

  lemma {:induction false} EraseEachWears(rows: seq<Account>, vaultId: string, found: seq<Account>)
    ensures WornOut(rows, EraseEach(rows, vaultId, found))
  {
    if found != [] {
      EraseEachWears(rows, vaultId, found[..|found| - 1]);
      WearComposes(rows, EraseEach(rows, vaultId, found[..|found| - 1]), EraseEach(rows, vaultId, found));
    }
  }

  /** Handing out and mailing keeps the invariant, and at most one mail ever carries a ciphertext. */
  lemma {:induction false} HandOutKeepsInv(rows: seq<Account>, drawn: nat, sent: seq<Submission>, mail: seq<Invitation>,
                                           m: Invitation)
    requires AccountsInv(rows, drawn, sent, mail)
    requires m.encrypted == HandOut(rows, m.vaultId, m.email).1
    ensures var later := HandOut(rows, m.vaultId, m.email).0;
      WornOut(rows, later) && |later| == |rows| && AccountsInv(later, drawn, sent, mail + [m])
  {
    hide AllAttempted, RowsOk, SentOnce, MailOk;
    var later := HandOut(rows, m.vaultId, m.email).0;
    WearKeepsInv(rows, later, drawn, sent, mail);
    if m.encrypted.Some? {
      OwnMailIsOk(rows, drawn, m);
      NeverSentBefore(rows, drawn, mail, m);
    } else {
      assert MailOk(later, m) by { EmptyMailIsOk(later, m); }
    }
    OneMoreMail(later, mail, m);
  }

  lemma {:induction false} EmptyMailIsOk(rows: seq<Account>, m: Invitation)
    requires m.encrypted.None?
    ensures MailOk(rows, m)
  {}

  lemma {:induction false} OwnMailIsOk(rows: seq<Account>, drawn: nat, m: Invitation)
    requires RowsOk(rows, drawn) && m.encrypted == HandOut(rows, m.vaultId, m.email).1 && m.encrypted.Some?
    ensures MailOk(HandOut(rows, m.vaultId, m.email).0, m)
  {
    var i := FindByEmail(rows, m.vaultId, m.email);
    assert RowOk(rows[i], drawn);
    FindSurvives(rows, HandOut(rows, m.vaultId, m.email).0, m.vaultId, m.email);
  }

  lemma {:induction false} NeverSentBefore(rows: seq<Account>, drawn: nat, mail: seq<Invitation>, m: Invitation)
    requires RowsOk(rows, drawn) && AllMailOk(rows, mail)
    requires m.encrypted == HandOut(rows, m.vaultId, m.email).1 && m.encrypted.Some?
    ensures forall k :: 0 <= k < |mail| ==> mail[k].encrypted != m.encrypted
  {
    var i := FindByEmail(rows, m.vaultId, m.email);
    assert RowOk(rows[i], drawn);
    forall k | 0 <= k < |mail| ensures mail[k].encrypted != m.encrypted {
      if mail[k].encrypted.Some? {
        assert MailOk(rows, mail[k]);
        var j := FindByEmail(rows, mail[k].vaultId, mail[k].email);
        if rows[j].id == rows[i].id { SameIdSameRow(rows, drawn, i, j); }
      }
    }
  }

  lemma {:induction false} OneMoreMail(rows: seq<Account>, mail: seq<Invitation>, m: Invitation)
    requires AllMailOk(rows, mail) && SentOnce(mail) && MailOk(rows, m)
    requires m.encrypted.Some? ==> forall k :: 0 <= k < |mail| ==> mail[k].encrypted != m.encrypted
    ensures AllMailOk(rows, mail + [m]) && SentOnce(mail + [m])
  {
    hide MailOk;
  }

  lemma {:induction false} SameIdSameRow(rows: seq<Account>, drawn: nat, i: nat, j: nat)
    requires RowsOk(rows, drawn) && i < |rows| && j < |rows| && rows[i].id == rows[j].id
    ensures i == j
  {}

  lemma {:induction false} LinkingKeepsInv(st: Linking, vaultId: string, selfManaged: bool, snapshot: seq<Account>,
                                           logs: seq<Created>, drawn: nat, sent: seq<Submission>)
    requires AccountsInv(st.rows, drawn, sent, st.mail)
    ensures var later := LinkAll(st, vaultId, selfManaged, snapshot, logs);
      && WornOut(st.rows, later.rows) && |later.rows| == |st.rows|
      && st.mail <= later.mail
      && AccountsInv(later.rows, drawn, sent, later.mail)
  {
    hide AccountsInv, WornOut;
    if logs == [] {
      NoWear(st.rows);
    } else {
      var before := logs[..|logs| - 1];
      var mid := LinkAll(st, vaultId, selfManaged, snapshot, before);
      var later := LinkAll(st, vaultId, selfManaged, snapshot, logs);
      LinkingKeepsInv(st, vaultId, selfManaged, snapshot, before, drawn, sent);
      var named := NamedEmail(snapshot, Last(logs));
      if named.Some? && !selfManaged {
        HandOutKeepsInv(mid.rows, drawn, sent, mid.mail, Last(later.mail));
        WearComposes(st.rows, mid.rows, later.rows);
      }
    }
  }

  lemma {:induction false} NoWear(rows: seq<Account>)
    ensures WornOut(rows, rows)
  {}

  /** An attempt adds rows, one per token, and lists exactly their owners, whether it gets through or not. */
  lemma {:induction false} SubmissionKeepsInv(rows: seq<Account>, drawn: nat, sent: seq<Submission>,
                                              mail: seq<Invitation>,
                                              emails: seq<string>, vaultId: string, delivered: bool)
    requires AccountsInv(rows, drawn, sent, mail)
    ensures var more := rows + NewAccounts(emails, vaultId, drawn);
      && WornOut(rows, more)
      && AccountsInv(more, drawn + |emails|, sent + [Submission(vaultId, NewOwners(|emails|, drawn), drawn, delivered)],
                     mail)
  {
    var more := rows + NewAccounts(emails, vaultId, drawn);
    var s := Submission(vaultId, NewOwners(|emails|, drawn), drawn, delivered);
    forall i | 0 <= i < |more| ensures RowOk(more[i], drawn + |emails|) && WasAttempted(sent + [s], more[i]) {
      if i < |rows| {
        assert RowOk(rows[i], drawn) && WasAttempted(sent, rows[i]);
        var k :| 0 <= k < |sent| && Submits(sent[k], rows[i]);
        assert Submits((sent + [s])[k], more[i]);
      } else {
        assert more[i] == NewAccount(emails[i - |rows|], vaultId, i - |rows|, drawn + (i - |rows|));
        assert Submits((sent + [s])[|sent|], more[i]);
      }
    }
    forall i, j | 0 <= i < j < |more| ensures more[i].id < more[j].id {
      assert i < |rows| ==> RowOk(rows[i], drawn);
    }
    MailSurvives(rows, more, mail);
  }

  // ---------------------------------------------------------------- key agreement

  /** Presented by the email it was sent to, a ciphertext opens the private key of exactly the wallet
      that an attempt allocated for that email's token, exactly if KYC is completed and the key of the row
      is still there. Otherwise the answer is null. It never opens another key, and never throws. */
  lemma {:induction false} CiphertextOpensOwnKey(rows: seq<Account>, drawn: nat, sent: seq<Submission>,
                                                 mail: seq<Invitation>, m: Invitation, kycCompleted: bool)
    requires AccountsInv(rows, drawn, sent, mail) && m in mail && m.encrypted.Some?
    ensures var i := FindByEmail(rows, m.vaultId, m.email);
      && i < |rows| && rows[i].vaultId == m.vaultId && rows[i].userEmail == m.email
      && WasAttempted(sent, rows[i])
      && SignVaultTransaction(rows, m.vaultId, kycCompleted, m.email, m.encrypted) ==
           (if kycCompleted && rows[i].key.Some? then SignedBy(rows[i].address.secret) else Refused)
  {
    var k :| 0 <= k < |mail| && mail[k] == m;
    assert MailOk(rows, mail[k]);
    var i := FindByEmail(rows, m.vaultId, m.email);
    assert RowOk(rows[i], drawn) && WasAttempted(sent, rows[i]);
  }

  /** With distinct emails among the vault's rows, and no attempt that broke down, the wallet is the one
      submitted for THE token of this email. */
  lemma {:induction false} KeyAgreement(rows: seq<Account>, drawn: nat, sent: seq<Submission>, mail: seq<Invitation>,
                                        m: Invitation, kycCompleted: bool, i: nat)
    requires AccountsInv(rows, drawn, sent, mail) && m in mail && m.encrypted.Some?
    requires DistinctEmails(rows, m.vaultId)
    requires forall k :: 0 <= k < |sent| && sent[k].vaultId == m.vaultId ==> sent[k].delivered
    requires i < |rows| && rows[i].vaultId == m.vaultId && rows[i].userEmail == m.email
    ensures WasSubmitted(sent, rows[i])
    ensures rows[i].address.Wallet?
    ensures SignVaultTransaction(rows, m.vaultId, kycCompleted, m.email, m.encrypted) ==
      if !kycCompleted || Stage(rows[i]) == 2 then Refused else SignedBy(rows[i].address.secret)
  {
    CiphertextOpensOwnKey(rows, drawn, sent, mail, m, kycCompleted);
    DistinctEmailsAreFirst(rows, m.vaultId, i);
    assert RowOk(rows[i], drawn);
    var k :| 0 <= k < |sent| && Submits(sent[k], rows[i]);
    assert sent[k].delivered;
    var n :| 0 <= n < |mail| && mail[n] == m;
    assert MailOk(rows, mail[n]);
  }

  /** Whatever a user presents: a signature of some wallet comes out exactly if KYC is completed and the row
      found by the user's email still has its key, and that wallet's own ciphertext is presented. */
  lemma {:induction false} OnlyOwnCiphertextSigns(rows: seq<Account>, drawn: nat, vaultId: string, userEmail: string,
                                                  kycCompleted: bool, encrypted: Option<Ciphertext>, secret: Secret)
    requires RowsOk(rows, drawn) && (encrypted.Some? ==> encrypted.value.plain == encrypted.value.sealedWith)
    ensures var i := FindByEmail(rows, vaultId, userEmail);
      var signature := SignVaultTransaction(rows, vaultId, kycCompleted, userEmail, encrypted);
      var allowed := kycCompleted && i < |rows| && rows[i].key.Some?;
      && (signature == SignedBy(secret) <==>
            allowed && rows[i].address == Wallet(secret) && encrypted == Some(Sealed(secret, secret)))
      && (signature == Refused <==> !allowed)
  {
    var i := FindByEmail(rows, vaultId, userEmail);
    if i < |rows| { assert RowOk(rows[i], drawn); }
  }
}
