/** Access codes of tax forms (tax-form.service.ts): issuing a code, access with it, and its removal
    after a while. A request may break down on the way, after the code is stored. */
module TaxFormAccess {
  import opened Prelude
  import opened AuditLog

  datatype FormType = FORM_1099 | FORM_W9 | FORM_W8_BEN | FORM_W8_BEN_E

  datatype TaxForm = TaxForm(
    id: string, auth0Id: string, vaultId: string, s3Key: string, shareHolderRoleAddress: string, formType: FormType,
    userType: Option<string>, taxYear: int, securityCode: Option<string>, createdAt: string)

  datatype Mail = Mail(auth0Id: string, taxFormId: string, code: string, timestamp: int, ip: string)

  /** Where a request breaks down. An entry that the event bus does not accept is only logged. */
  datatype Trouble = NoTrouble | DocumentThrows | AuditThrows | MailThrows | SchedulingThrows | SchedulingFails

  datatype Response = Success | NotFound | CannotPerform | Threw

  /** `pending` are the scheduled removals of codes. */
  datatype State = State(forms: map<string, TaxForm>, pending: multiset<string>, calls: seq<Call>, mails: seq<Mail>)

  const EMPTY := State(map[], multiset{}, [], [])

  /** A 1099 form without a user type gets no document. */
  predicate HasDocument(form: TaxForm) {
    form.formType == FORM_1099 ==> Truthy(form.userType)
  }

  function Requested(id: string, auth0Id: string, time: int, ip: string): Call {
    Call(id, auth0Id, Event(time, "access_requested", "success", ip))
  }

  /** requestTaxFormAccess: a form that has a code already answers success to anyone, without effect. */
  function RequestAccess(s: State, user: string, ip: string, id: string, code: string, time: int,
                         trouble: Trouble): (State, Response) {
    if id !in s.forms then (s, NotFound)
    else
      var form := s.forms[id];
      if Truthy(form.securityCode) then (s, Success)
      else if form.auth0Id != user then (s, CannotPerform)
      else
        var issued := s.(forms := s.forms[id := form.(securityCode := Some(code))]);
        if (trouble == DocumentThrows && HasDocument(form)) || trouble == AuditThrows then (issued, Threw)
        else
          var audited := issued.(calls := s.calls + [Requested(id, user, time, ip)]);
          if trouble == MailThrows then (audited, Threw)
          else
            var mailed := audited.(mails := s.mails + [Mail(user, id, code, time, ip)]);
            if trouble == SchedulingThrows then (mailed, Threw)
            else if trouble == SchedulingFails then (mailed, Success)
            else (mailed.(pending := s.pending + multiset{id}), Success)
  }

  datatype Access = FormNotFound | WrongUser | WrongCode | Granted(s3Key: string)

  /** accessTaxFormById */
  function AccessForm(forms: map<string, TaxForm>, user: string, id: string, code: string): Access {
    if id !in forms then FormNotFound
    else if forms[id].auth0Id != user then WrongUser
    else if forms[id].securityCode != Some(code) then WrongCode
    else Granted(forms[id].s3Key)
  }

  /** The update writes all attributes but the code, and so removes it. */
  function WithoutCode(form: TaxForm): TaxForm {
    TaxForm(form.id, form.auth0Id, form.vaultId, form.s3Key, form.shareHolderRoleAddress, form.formType,
            form.userType, form.taxYear, None, form.createdAt)
  }

  // ---------------------------------------------------------------- the machine

  datatype Action =
    | CreateForm(form: TaxForm)
    | Request(user: string, ip: string, id: string, code: string, time: int, trouble: Trouble)
    | Download(user: string, ip: string, id: string, time: int)
    | Remove(id: string)

  predicate Enabled(s: State, a: Action) {
    match a
    case CreateForm(form) => form.id !in s.forms && form.securityCode.None?
    case Request(_, _, _, code, _, _) => code != ""
    case Download(_, _, _, _) => true
    case Remove(id) => id in s.pending && id in s.forms
  }

  function Removed(s: State, id: string): State
    requires id in s.forms
  {
    s.(forms := s.forms[id := WithoutCode(s.forms[id])], pending := s.pending - multiset{id})
  }

  function Apply(s: State, a: Action): State
    requires Enabled(s, a)
  {
    match a
    case CreateForm(form) => s.(forms := s.forms[form.id := form])
    case Request(user, ip, id, code, time, trouble) => RequestAccess(s, user, ip, id, code, time, trouble).0
    case Download(user, ip, id, time) =>
      s.(calls := s.calls + [Call(id, user, Event(time, "document_downloaded", "complete", ip))])
    case Remove(id) => Removed(s, id)
  }

  ghost predicate Feasible(s: State, acts: seq<Action>)
    decreases |acts|, 0
  {
    acts == [] || (Feasible(s, acts[..|acts| - 1]) && Enabled(Run(s, acts[..|acts| - 1]), Last(acts)))
  }

  ghost function Run(s: State, acts: seq<Action>): State
    requires Feasible(s, acts)
    decreases |acts|, 1
  {
    if acts == [] then s else Apply(Run(s, acts[..|acts| - 1]), Last(acts))
  }

  // ---------------------------------------------------------------- codes and removals

  function CodeIn(forms: map<string, TaxForm>, id: string): Option<string> {
    if id in forms then forms[id].securityCode else None
  }

  predicate HasCode(s: State, id: string) {
    CodeIn(s.forms, id).Some?
  }

  /** At most one removal is pending for a form, and only while it has a code. */
  ghost predicate FormOk(code: Option<string>, removals: nat) {
    removals <= 1 && (removals == 1 ==> code.Some?) && (code.Some? ==> code.value != "")
  }

  ghost predicate PendingOk(s: State) {
    forall id :: FormOk(CodeIn(s.forms, id), s.pending[id])
  }

  /** And every code has one. */
  ghost predicate AllPending(s: State) {
    forall id :: HasCode(s, id) ==> s.pending[id] == 1
  }

  /** Documents can only break a request down that has one; everything else always can. */
  predicate BreaksDown(form: TaxForm, trouble: Trouble) {
    trouble != NoTrouble && (trouble == DocumentThrows && form.formType == FORM_1099 ==> Truthy(form.userType))
  }

  /** A request that issues a code but does not get to schedule its removal. */
  predicate LeavesCodeBehind(s: State, a: Action) {
    && a.Request? && a.id in s.forms && !Truthy(s.forms[a.id].securityCode) && s.forms[a.id].auth0Id == a.user
    && a.code != ""
    && BreaksDown(s.forms[a.id], a.trouble)
  }

  /** What an answer tells the user. Success and an exception mean that the form has a code now, a refusal that it
      has none; a request that leaves its code behind throws, unless only the event bus did not take the entry;
      and except for the form's own code nothing is refused or stored without its owner asking. */
  lemma {:induction false} AnswerMeans(s: State, user: string, ip: string, id: string, code: string, time: int,
                                       trouble: Trouble)
    requires PendingOk(s) && code != ""
    ensures var (t, answer) := RequestAccess(s, user, ip, id, code, time, trouble);
      && (answer == NotFound <==> id !in s.forms)
      && (answer == Success || answer == Threw <==> HasCode(t, id))
      && (answer == Threw <==>
            LeavesCodeBehind(s, Request(user, ip, id, code, time, trouble)) && trouble != SchedulingFails)
      && (answer == NotFound || answer == CannotPerform ==> t == s)
      && (answer == Success && !HasCode(s, id) ==> LastMail(t.mails, id) == Some(Mail(user, id, code, time, ip)))
  {
    assert FormOk(CodeIn(s.forms, id), s.pending[id]);
  }

  /** How far a request got that issued a code: first the audit, then the mail, then the removal, and what comes
      before a breakdown is done. */
  lemma {:induction false} TrailOfRequest(s: State, user: string, ip: string, id: string, code: string, time: int,
                                          trouble: Trouble)
    requires id in s.forms && !Truthy(s.forms[id].securityCode) && s.forms[id].auth0Id == user
    ensures var t := RequestAccess(s, user, ip, id, code, time, trouble).0;
      var documentFails := trouble == DocumentThrows && BreaksDown(s.forms[id], trouble);
      && (t.calls == s.calls <==> documentFails || trouble == AuditThrows)
      && (t.calls != s.calls ==> t.calls == s.calls + [Call(id, user, Event(time, "access_requested", "success", ip))])
      && (t.mails == s.mails <==> t.calls == s.calls || trouble == MailThrows)
      && (t.pending == s.pending <==> t.mails == s.mails || trouble == SchedulingThrows || trouble == SchedulingFails)
      && (t.pending != s.pending ==> t.pending == s.pending + multiset{id})
  {
    assert |s.pending + multiset{id}| == |s.pending| + 1;
  }

  /** What a step does to the code and the pending removals of one form. */
  lemma {:induction false} StepOnForm(s: State, a: Action, id: string)
    requires FormOk(CodeIn(s.forms, id), s.pending[id]) && Enabled(s, a)
    ensures var t := Apply(s, a);
      && FormOk(CodeIn(t.forms, id), t.pending[id])
      && ((HasCode(s, id) ==> s.pending[id] == 1) && !(LeavesCodeBehind(s, a) && a.id == id) ==>
            (HasCode(t, id) ==> t.pending[id] == 1))
  {}

  lemma {:induction false} LeavingLeaves(s: State, a: Action)
    requires PendingOk(s) && Enabled(s, a) && LeavesCodeBehind(s, a)
    ensures var t := Apply(s, a); HasCode(t, a.id) && t.pending[a.id] == 0
  {
    assert FormOk(CodeIn(s.forms, a.id), s.pending[a.id]);
  }

  lemma {:induction false} StepKeepsPending(s: State, a: Action)
    requires PendingOk(s) && Enabled(s, a)
    ensures PendingOk(Apply(s, a))
    ensures AllPending(s) ==> (AllPending(Apply(s, a)) <==> !LeavesCodeBehind(s, a))
  {
    hide Enabled, Apply, FormOk, LeavesCodeBehind;
    var t := Apply(s, a);
    forall id ensures FormOk(CodeIn(t.forms, id), t.pending[id]) {
      StepOnForm(s, a, id);
    }
    if LeavesCodeBehind(s, a) {
      LeavingLeaves(s, a);
    } else if AllPending(s) {
      forall id | HasCode(t, id) ensures t.pending[id] == 1 {
        assert FormOk(CodeIn(s.forms, id), s.pending[id]);
        StepOnForm(s, a, id);
      }
    }
  }

  lemma {:induction false} NoRemovalStays(s: State, a: Action, id: string)
    requires PendingOk(s) && Enabled(s, a) && HasCode(s, id) && id !in s.pending
    ensures var t := Apply(s, a);
      && HasCode(t, id) && t.forms[id] == s.forms[id] && id !in t.pending
      && (forall m :: m in t.mails && m.taxFormId == id ==> m in s.mails)
  {
    assert FormOk(CodeIn(s.forms, id), s.pending[id]);
  }

  lemma {:induction false} MissingRemovalIsNeverMadeUp(s: State, a: Action)
    requires PendingOk(s) && Enabled(s, a) && !AllPending(s)
    ensures !AllPending(Apply(s, a))
  {
    var id :| HasCode(s, id) && s.pending[id] != 1;
    assert FormOk(CodeIn(s.forms, id), s.pending[id]);
    NoRemovalStays(s, a, id);
  }

  /** No request of the run left its code behind. */
  ghost predicate AllComplete(acts: seq<Action>)
    requires Feasible(EMPTY, acts)
  {
    acts == [] || (AllComplete(acts[..|acts| - 1]) && !LeavesCodeBehind(Run(EMPTY, acts[..|acts| - 1]), Last(acts)))
  }

  lemma {:induction false} NothingPending()
    ensures PendingOk(EMPTY) && AllPending(EMPTY)
  {}

  /** After any run, every code has a pending removal if and only if no request on the way left its code
      behind. Whatever else went wrong does not matter. */
  lemma {:induction false} RemovalsArePendingIffComplete(acts: seq<Action>)
    requires Feasible(EMPTY, acts)
    ensures PendingOk(Run(EMPTY, acts))
    ensures AllPending(Run(EMPTY, acts)) <==> AllComplete(acts)
  {
    if acts != [] {
      hide PendingOk, AllPending, Enabled, Apply, LeavesCodeBehind;
      var before := acts[..|acts| - 1];
      RemovalsArePendingIffComplete(before);
      StepKeepsPending(Run(EMPTY, before), Last(acts));
      if !AllPending(Run(EMPTY, before)) { MissingRemovalIsNeverMadeUp(Run(EMPTY, before), Last(acts)); }
    } else {
      NothingPending();
    }
  }

  /** Then a form has a code exactly when one removal of it is pending. */
  lemma {:induction false} CodeMeansPending(acts: seq<Action>, id: string)
    requires Feasible(EMPTY, acts) && AllComplete(acts)
    ensures var s := Run(EMPTY, acts);
      && (HasCode(s, id) <==> s.pending[id] == 1)
      && (!HasCode(s, id) <==> s.pending[id] == 0)
  {
    hide AllComplete;
    RemovalsArePendingIffComplete(acts);
    assert FormOk(CodeIn(Run(EMPTY, acts).forms, id), Run(EMPTY, acts).pending[id]);
  }

  // ---------------------------------------------------------------- the owner is told

  /** The newest mail about a form. */
  function LastMail(mails: seq<Mail>, id: string): Option<Mail> {
    if mails == [] then None
    else if Last(mails).taxFormId == id then Some(Last(mails)) else LastMail(mails[..|mails| - 1], id)
  }

  /** The audited requests, and the ones that the mails should have. */
  function RequestsIn(calls: seq<Call>): seq<Call> {
    Filter(calls, (c: Call) => c.event.action == "access_requested")
  }

  function AuditOf(mails: seq<Mail>): seq<Call> {
    seq(|mails|, i requires 0 <= i < |mails| =>
          Call(mails[i].taxFormId, mails[i].auth0Id,
               Event(mails[i].timestamp, "access_requested", "success", mails[i].ip)))
  }

  /** The newest mail about a form with a code went to its owner and tells that code. */
  ghost predicate OwnerTold(s: State, id: string) {
    HasCode(s, id) ==>
      var mail := LastMail(s.mails, id);
      mail.Some? && CodeIn(s.forms, id) == Some(mail.value.code) && mail.value.auth0Id == s.forms[id].auth0Id
  }

  lemma {:induction false} OneMoreMail(mails: seq<Mail>, m: Mail, id: string)
    ensures LastMail(mails + [m], id) == if m.taxFormId == id then Some(m) else LastMail(mails, id)
    ensures AuditOf(mails + [m]) == AuditOf(mails) + [Requested(m.taxFormId, m.auth0Id, m.timestamp, m.ip)]
  {
    assert (mails + [m])[..|mails + [m]| - 1] == mails;
  }

  lemma {:induction false} OneMoreCall(calls: seq<Call>, c: Call)
    ensures RequestsIn(calls + [c]) ==
      if c.event.action == "access_requested" then RequestsIn(calls) + [c] else RequestsIn(calls)
  {
    FilterConcat(calls, [c], (c: Call) => c.event.action == "access_requested");
    assert RequestsIn([c]) == if c.event.action == "access_requested" then [c] else [];
  }

  lemma {:induction false} StepTellsOwner(s: State, a: Action, id: string)
    requires Enabled(s, a) && OwnerTold(s, id) && RequestsIn(s.calls) == AuditOf(s.mails) && !LeavesCodeBehind(s, a)
    ensures var t := Apply(s, a); OwnerTold(t, id) && RequestsIn(t.calls) == AuditOf(t.mails)
  {
    hide LastMail, AuditOf, RequestsIn;
    match a
    case CreateForm(_) =>
    case Request(user, ip, form, code, time, _) =>
      OneMoreMail(s.mails, Mail(user, form, code, time, ip), id);
      OneMoreCall(s.calls, Requested(form, user, time, ip));
    case Download(user, ip, form, time) =>
      OneMoreCall(s.calls, Call(form, user, Event(time, "document_downloaded", "complete", ip)));
    case Remove(_) =>
  }

  /** In a run whose requests all complete, the owner of every form with a code has been mailed exactly
      that code, and the audited requests are exactly those of the mails, one by one and in order. */
  lemma {:induction false} OwnerIsTold(acts: seq<Action>, id: string)
    requires Feasible(EMPTY, acts) && AllComplete(acts)
    ensures var s := Run(EMPTY, acts); OwnerTold(s, id) && RequestsIn(s.calls) == AuditOf(s.mails)
  {
    if acts != [] {
      hide OwnerTold, Enabled, Apply, LeavesCodeBehind, RequestsIn, AuditOf;
      var before := acts[..|acts| - 1];
      OwnerIsTold(before, id);
      StepTellsOwner(Run(EMPTY, before), Last(acts), id);
    }
  }

  // ---------------------------------------------------------------- each form on its own

  /** What becomes of one form's code: the owner's request sets it if there is none, a removal clears it. */
  function NextCode(code: Option<string>, a: Action, id: string, owner: string): Option<string> {
    match a
    case Request(user, _, form, issued, _, _) =>
      if form == id && user == owner && code.None? then Some(issued) else code
    case Remove(form) => if form == id then None else code
    case _ => code
  }

  function CodeOf(acts: seq<Action>, id: string, owner: string): Option<string> {
    if acts == [] then None else NextCode(CodeOf(acts[..|acts| - 1], id, owner), Last(acts), id, owner)
  }

  ghost predicate SameButCode(f: TaxForm, g: TaxForm) {
    WithoutCode(f) == WithoutCode(g)
  }

  lemma {:induction false} StepOfForm(s: State, a: Action, id: string)
    requires Enabled(s, a) && id in s.forms && (Truthy(s.forms[id].securityCode) <==> s.forms[id].securityCode.Some?)
    ensures var t := Apply(s, a);
      && id in t.forms && SameButCode(t.forms[id], s.forms[id])
      && t.forms[id].securityCode == NextCode(s.forms[id].securityCode, a, id, s.forms[id].auth0Id)
  {}

  /** In every run, whatever happens to other forms and whatever breaks down, the code of a form is that
      of its own little machine, and nothing else of the row ever changes. */
  lemma {:induction false} FormsAreIndependent(s: State, acts: seq<Action>, id: string)
    requires Feasible(s, acts) && PendingOk(s) && id in s.forms && s.forms[id].securityCode.None?
    ensures var t := Run(s, acts);
      && PendingOk(t) && id in t.forms && SameButCode(t.forms[id], s.forms[id])
      && t.forms[id].securityCode == CodeOf(acts, id, s.forms[id].auth0Id)
  {
    hide PendingOk, Enabled, Apply, NextCode, Truthy;
    if acts != [] {
      var before := acts[..|acts| - 1];
      FormsAreIndependent(s, before, id);
      var mid := Run(s, before);
      StepKeepsPending(mid, Last(acts));
      CodesAreNotEmpty(mid, id);
      StepOfForm(mid, Last(acts), id);
    }
  }

  lemma {:induction false} CodesAreNotEmpty(s: State, id: string)
    requires PendingOk(s) && id in s.forms
    ensures Truthy(s.forms[id].securityCode) <==> s.forms[id].securityCode.Some?
  {
    assert FormOk(CodeIn(s.forms, id), s.pending[id]);
  }

  /** So access succeeds exactly for the owner with the code issued since the last removal. */
  lemma {:induction false} AccessNeedsTheCurrentCode(s: State, acts: seq<Action>, id: string, user: string,
        code: string)
    requires Feasible(s, acts) && PendingOk(s) && id in s.forms && s.forms[id].securityCode.None?
    ensures AccessForm(Run(s, acts).forms, user, id, code).Granted? <==>
      user == s.forms[id].auth0Id && CodeOf(acts, id, s.forms[id].auth0Id) == Some(code)
  {
    FormsAreIndependent(s, acts, id);
  }

  /** Issuing a code and removing it leaves the row as it was. */
  lemma {:induction false} IssueThenRemove(s: State, user: string, ip: string, id: string, code: string, time: int)
    requires id in s.forms && s.forms[id].securityCode.None? && s.forms[id].auth0Id == user && code != ""
    ensures var issued := Apply(s, Request(user, ip, id, code, time, NoTrouble));
      && Enabled(issued, Remove(id))
      && AccessForm(issued.forms, user, id, code) == Granted(s.forms[id].s3Key)
      && Apply(issued, Remove(id)).forms == s.forms
      && Apply(issued, Remove(id)).pending == s.pending
  {
    var issued := Apply(s, Request(user, ip, id, code, time, NoTrouble));
    assert s.pending + multiset{id} - multiset{id} == s.pending;
  }

  // ---------------------------------------------------------------- requests that break down

  /** The code of a request that leaves it behind is never removed, and no later request sends another
      mail: they all answer success without effect. */
  lemma {:induction false} CodeStaysForEver(s: State, a: Action, acts: seq<Action>)
    requires PendingOk(s) && LeavesCodeBehind(s, a) && Feasible(Apply(s, a), acts)
    ensures var t := Run(Apply(s, a), acts);
      && PendingOk(t) && HasCode(t, a.id) && a.id !in t.pending && t.forms[a.id].securityCode == Some(a.code)
      && (forall m :: m in t.mails && m.taxFormId == a.id ==> m in Apply(s, a).mails)
  {
    var u := Apply(s, a);
    if acts == [] {
      StepKeepsPending(s, a);
      NotPendingWithoutCode(s, a.id);
    } else {
      hide PendingOk, Enabled, Apply, LeavesCodeBehind;
      var before := acts[..|acts| - 1];
      CodeStaysForEver(s, a, before);
      StepKeepsPending(Run(u, before), Last(acts));
      NoRemovalStays(Run(u, before), Last(acts), a.id);
    }
  }

  lemma {:induction false} NotPendingWithoutCode(s: State, id: string)
    requires PendingOk(s) && id in s.forms && !Truthy(s.forms[id].securityCode)
    ensures id !in s.pending
  {
    assert FormOk(CodeIn(s.forms, id), s.pending[id]);
  }

  // ---------------------------------------------------------------- the service

  class TaxFormService {
    const auditService: AuditService
    var forms: map<string, TaxForm>
    var pending: multiset<string>
    var mails: seq<Mail>

    ghost function Now(): State reads this, auditService {
      State(forms, pending, auditService.calls, mails)
    }

    constructor (auditService: AuditService)
      requires auditService.calls == []
      ensures this.auditService == auditService && Now() == EMPTY
    {
      this.auditService := auditService;
      forms, pending, mails := map[], multiset{}, [];
    }

    /** `code` is the generated one, `date` the time. */
    method RequestTaxFormAccess(user: string, ip: string, id: string, code: string, date: int, trouble: Trouble)
      returns (response: Response)
      requires auditService.Valid()
      modifies this, auditService
      ensures auditService.Valid()
      ensures (Now(), response) == RequestAccess(old(Now()), user, ip, id, code, date, trouble)
    {
      if id !in forms { return NotFound; }
      var taxForm := forms[id];
      if Truthy(taxForm.securityCode) { return Success; }
      if taxForm.auth0Id != user { return CannotPerform; }
      forms := forms[id := taxForm.(securityCode := Some(code))];
      if trouble == DocumentThrows && HasDocument(taxForm) { return Threw; }
      if trouble == AuditThrows { return Threw; }
      auditService.AddAudit(id, user, Event(date, "access_requested", "success", ip));
      if trouble == MailThrows { return Threw; }
      mails := mails + [Mail(user, id, code, date, ip)];
      if trouble == SchedulingThrows { return Threw; }
      if trouble != SchedulingFails { pending := pending + multiset{id}; }
      response := Success;
    }

    method AccessTaxFormById(user: string, id: string, securityCode: string) returns (access: Access)
      ensures access == AccessForm(forms, user, id, securityCode)
      ensures access.Granted? <==>
        id in forms && forms[id].auth0Id == user && forms[id].securityCode == Some(securityCode)
      ensures access.FormNotFound? <==> id !in forms
      ensures access.WrongUser? <==> id in forms && forms[id].auth0Id != user
      ensures access.Granted? ==> access.s3Key == forms[id].s3Key
    {
      if id !in forms { return FormNotFound; }
      var taxForm := forms[id];
      if taxForm.auth0Id != user { return WrongUser; }
      if taxForm.securityCode != Some(securityCode) { return WrongCode; }
      access := Granted(taxForm.s3Key);
    }

    method TaxFormDownloaded(user: string, ip: string, id: string, date: int)
      requires auditService.Valid()
      modifies auditService
      ensures auditService.Valid() && Now() == Apply(old(Now()), Download(user, ip, id, date))
    {
      auditService.AddAudit(id, user, Event(date, "document_downloaded", "complete", ip));
    }

    /** A scheduled removal comes due; for a missing form it throws. */
    method RemoveTaxFormSecurityCodeAfterTime(id: string) returns (threw: bool)
      modifies this
      ensures threw <==> id !in old(forms)
      ensures Now() == if threw then old(Now()) else Removed(old(Now()), id)
    {
      if id !in forms { return true; }
      threw := false;
      var taxForm := forms[id];
      forms := forms[id := TaxForm(taxForm.id, taxForm.auth0Id, taxForm.vaultId, taxForm.s3Key,
                                   taxForm.shareHolderRoleAddress,
                                   taxForm.formType, taxForm.userType, taxForm.taxYear, None, taxForm.createdAt)];
      pending := pending - multiset{id};
    }
  }
}
