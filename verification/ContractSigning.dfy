/** The e-sign workflow of one contract, with any number of public signers at once. */
module ContractSigning {
  import opened Wrappers

  datatype Status = Draft | Sent | Signed | Active | Expired | Terminated

  /** Everything the signing UPDATE writes about the signer. */
  datatype Signature = Signature(at: int, name: string, email: string, image: string)

  datatype Contract = Contract(
    status: Status,
    signToken: Option<string>,
    tokenExpiresAt: Option<int>,
    sentAt: Option<int>,
    signature: Option<Signature>,
    startDate: Option<int>,
    designatedEmail: Option<string>,
    contactEmail: Option<string>)

  /** Python's `strip` and `lower`. */
  datatype Text = Text(strip: string -> string, lower: string -> string)

  const SIGN_TOKEN_TTL := 7 * 86_400

  /** `_designated_email_for`: the designated signer, or else the contact; "" when neither is set. */
  function DesignatedEmail(text: Text, c: Contract): string {
    if c.designatedEmail.Some? && text.strip(c.designatedEmail.value) != "" then
      text.lower(text.strip(c.designatedEmail.value))
    else if c.contactEmail.Some? && c.contactEmail.value != "" then
      text.lower(text.strip(c.contactEmail.value))
    else ""
  }

  predicate HasRecipient(c: Contract) {
    (c.designatedEmail.Some? && c.designatedEmail.value != "") || (c.contactEmail.Some? && c.contactEmail.value != "")
  }

  datatype SignError = NotSent | LinkExpired | NoRecipient | WrongSigner | AlreadySigned

  /** `_assert_signer_matches`, where there is a recipient to match. */
  function MatchSigner(text: Text, c: Contract, email: string): Option<SignError> {
    if !HasRecipient(c) then None
    else if DesignatedEmail(text, c) == "" then Some(NoRecipient)
    else if text.lower(text.strip(email)) != DesignatedEmail(text, c) then Some(WrongSigner)
    else None
  }

  /** The local checks of `sign_contract`, on the row the signer's request has loaded. */
  function CheckSigner(text: Text, loaded: Contract, email: string, now: int): Option<SignError> {
    if loaded.status != Sent then Some(NotSent)
    else if loaded.tokenExpiresAt.None? || loaded.tokenExpiresAt.value < now then Some(LinkExpired)
    else MatchSigner(text, loaded, email)
  }

  /** The address is the same, up to surrounding space and case. */
  ghost predicate SameAddress(text: Text, a: string, b: string) {
    text.lower(text.strip(a)) == text.lower(text.strip(b))
  }

  /**
   * Who may sign: the designated signer, whoever the contact is; without one the contact; without
   * either anybody. A blank address on file that nothing replaces lets nobody sign.
   */
  ghost predicate Entitled(text: Text, c: Contract, email: string) {
    if c.designatedEmail.Some? && text.strip(c.designatedEmail.value) != "" then
      SameAddress(text, email, c.designatedEmail.value)
    else if c.contactEmail.Some? && c.contactEmail.value != "" then
      text.strip(c.contactEmail.value) != "" && SameAddress(text, email, c.contactEmail.value)
    else c.designatedEmail.None? || c.designatedEmail.value == ""
  }

  /** Python's two functions: stripping makes nothing of nothing, lowering makes nothing only of nothing. */
  ghost predicate Sane(text: Text) {
    text.strip("") == "" && forall s :: text.lower(s) == "" <==> s == ""
  }

  /** The checks pass exactly for a contract that is out, a link that has not expired, and an entitled signer. */
  lemma CheckPassesIff(text: Text, loaded: Contract, email: string, now: int)
    requires Sane(text)
    ensures CheckSigner(text, loaded, email, now).None? <==>
      && loaded.status == Sent && loaded.tokenExpiresAt.Some? && now <= loaded.tokenExpiresAt.value
      && Entitled(text, loaded, email)
    ensures MatchSigner(text, loaded, email).None? <==> Entitled(text, loaded, email)
  {
  }

  /** The designated signer passes and the contact does not, when they differ. */
  lemma DesignatedSignerWins(text: Text, c: Contract, signer: string, contact: string, now: int)
    requires Sane(text) && text.strip(signer) != "" && !SameAddress(text, contact, signer)
    requires c.status == Sent && c.tokenExpiresAt == Some(now)
    requires c.designatedEmail == Some(signer) && c.contactEmail == Some(contact)
    ensures CheckSigner(text, c, signer, now).None? && CheckSigner(text, c, contact, now) == Some(WrongSigner)
  {
  }

  /** How queueing the e-mail went: handed over (sent, throttled or to be retried), refused, or raised. */
  datatype Delivery = Queued | Refused | Raised

  /** What `send_for_signature` leaves in the row, before its transaction ends. */
  function SentOut(c: Contract, token: string, now: int, delivery: Delivery): Contract {
    if c.status != Draft && c.status != Sent then c
    else if delivery == Refused then c.(status := Draft, signToken := None, tokenExpiresAt := None, sentAt := None)
    else c.(status := Sent, signToken := Some(token), tokenExpiresAt := Some(now + SIGN_TOKEN_TTL), sentAt := Some(now))
  }

  /** The guarded UPDATE of `sign_contract`. */
  function SignedBy(c: Contract, signature: Signature): Contract {
    if c.status != Sent then c
    else c.(status := Signed, signature := Some(signature), signToken := None, tokenExpiresAt := None)
  }

  /** `get_by_token`: the row that carries the token. */
  function ByToken(c: Contract, token: string): Option<Contract> {
    if |token| >= 16 && c.signToken == Some(token) then Some(c) else None
  }

  /** The flip of the daily job. */
  function Flipped(c: Contract, today: int): Contract {
    if c.status == Signed && c.startDate.Some? && c.startDate.value <= today then c.(status := Active) else c
  }

  /** A contract as the services hold it. */
  class ContractRow {
    var status: Status
    var signToken: Option<string>
    var tokenExpiresAt: Option<int>
    var sentAt: Option<int>
    var signature: Option<Signature>
    const startDate: Option<int>
    const designatedEmail: Option<string>
    const contactEmail: Option<string>

    function Value(): Contract
      reads this
    {
      Contract(status, signToken, tokenExpiresAt, sentAt, signature, startDate, designatedEmail, contactEmail)
    }

    /** `get_by_token`, for this row. */
    method FindByToken(token: string) returns (found: Option<Contract>)
      ensures found == ByToken(Value(), token)
      ensures found.Some? ==>
        && found.value.status == status && found.value.signToken == signToken && found.value.sentAt == sentAt
        && found.value.tokenExpiresAt == tokenExpiresAt && found.value.signature == signature
        && found.value.startDate == startDate
        && found.value.designatedEmail == designatedEmail && found.value.contactEmail == contactEmail
    {
      if |token| < 16 || signToken != Some(token) {
        return None;
      }
      return Some(Value());
    }

    /** `send_for_signature`, from the locked read on; `ok` unless it raises. */
    method SendForSignature(token: string, now: int, delivery: Delivery) returns (ok: bool)
      modifies this
      ensures Value() == SentOut(old(Value()), token, now, delivery)
      ensures ok <==> (old(status) == Draft || old(status) == Sent) && delivery == Queued
    {
      if status != Draft && status != Sent {
        return false;
      }
      signToken := Some(token);
      tokenExpiresAt := Some(now + SIGN_TOKEN_TTL);
      sentAt := Some(now);
      status := Sent;
      if delivery == Raised {
        return false;
      }
      if delivery == Refused {
        signToken, tokenExpiresAt, sentAt, status := None, None, None, Draft;
        return false;
      }
      return true;
    }

    /** The UPDATE ... WHERE status = 'sent'; `ok` when it hit the row. */
    method Sign(signature: Signature) returns (ok: bool)
      modifies this
      ensures Value() == SignedBy(old(Value()), signature)
      ensures ok <==> old(status) == Sent
    {
      if status != Sent {
        return false;
      }
      status, this.signature := Signed, Some(signature);
      signToken, tokenExpiresAt := None, None;
      return true;
    }

    method FlipToActive(today: int)
      modifies this
      ensures Value() == Flipped(old(Value()), today)
    {
      if status == Signed && startDate.Some? && startDate.value <= today {
        status := Active;
      }
    }
  }

  // ---- The workflow as a whole ----

  /** Where one public signer's request stands. */
  datatype Phase =
    | Found(token: string, loaded: Contract)
    | Checked(token: string, loaded: Contract, signature: Signature)

  /** A signature that was accepted, and the link it came by. */
  datatype Acceptance = Acceptance(signer: nat, token: string, signature: Signature)

  /** The committed row, the requests under way, and what was accepted. */
  datatype World = World(row: Contract, signers: map<nat, Phase>, accepted: seq<Acceptance>)

  /**
   * The workflow steps. A send and a guarded update are atomic: the first holds the row's lock, the
   * second is one statement. `committed` says whether the transaction of the request survives.
   */
  datatype Step =
    | Send(token: string, now: int, delivery: Delivery, committed: bool)
    | LookUp(signer: nat, token: string)
    | Check(signer: nat, signature: Signature)
    | Write(signer: nat, committed: bool)
    | Flip(today: int)

  function Next(text: Text, w: World, step: Step): World {
    match step
    case Send(token, now, delivery, committed) =>
      if committed then w.(row := SentOut(w.row, token, now, delivery)) else w
    case LookUp(i, token) =>
      var found := ByToken(w.row, token);
      w.(signers := if found.Some? then w.signers[i := Found(token, found.value)] else w.signers - {i})
    case Check(i, signature) =>
      if i in w.signers && w.signers[i].Found?
         && CheckSigner(text, w.signers[i].loaded, signature.email, signature.at).None?
      then w.(signers := w.signers[i := Checked(w.signers[i].token, w.signers[i].loaded, signature)])
      else w.(signers := w.signers - {i})
    case Write(i, committed) =>
      if i in w.signers && w.signers[i].Checked? && committed && w.row.status == Sent then
        World(SignedBy(w.row, w.signers[i].signature), w.signers - {i},
              w.accepted + [Acceptance(i, w.signers[i].token, w.signers[i].signature)])
      else w.(signers := w.signers - {i})
    case Flip(today) => w.(row := Flipped(w.row, today))
  }

  function Run(text: Text, w: World, steps: seq<Step>): World {
    if steps == [] then w else Next(text, Run(text, w, steps[..|steps| - 1]), steps[|steps| - 1])
  }

  /** A contract nobody has sent yet. */
  predicate New(c: Contract) {
    c.status == Draft && c.signToken.None? && c.tokenExpiresAt.None? && c.signature.None?
  }

  predicate IsSigned(c: Contract) {
    c.status == Signed || c.status == Active
  }

  /** The e-mail may sign: it is the designated one, or there is nobody to compare with. */
  predicate MaySign(text: Text, c: Contract, email: string) {
    MatchSigner(text, c, email).None?
  }

  /** A link lives for seven days from its send. */
  ghost predicate LivesAWeek(c: Contract) {
    c.status == Sent ==> c.sentAt.Some? && c.tokenExpiresAt == Some(c.sentAt.value + 604_800)
  }

  ghost predicate Sound(text: Text, first: Contract, w: World) {
    && w.row.status in {Draft, Sent, Signed, Active}
    && (w.row.signToken.Some? <==> w.row.status == Sent)
    && (w.row.tokenExpiresAt.Some? <==> w.row.status == Sent)
    && (w.row.signature.Some? <==> IsSigned(w.row))
    && |w.accepted| == (if w.row.signature.Some? then 1 else 0)
    && (w.row.signature.Some? ==> w.accepted[0].signature == w.row.signature.value)
    && (w.row.signature.Some? ==> MaySign(text, first, w.row.signature.value.email))
    && SameParties(first, w.row) && LivesAWeek(w.row)
    && (forall i :: i in w.signers ==>
          match w.signers[i]
          case Found(_, loaded) => SameParties(first, loaded) && LivesAWeek(loaded)
          case Checked(_, loaded, signature) =>
            && SameParties(first, loaded) && LivesAWeek(loaded) && MaySign(text, first, signature.email)
            && CheckSigner(text, loaded, signature.email, signature.at).None?)
  }

  predicate SameParties(c: Contract, d: Contract) {
    c.designatedEmail == d.designatedEmail && c.contactEmail == d.contactEmail && c.startDate == d.startDate
  }

  /**
   * In every interleaving of sends, signers and lifecycle flips: at most one signature is ever
   * accepted and it is the one on file, by someone entitled to sign; a token is live exactly while
   * the contract is out for signature, and for a week from its send; the signature is set exactly
   * once it is signed or active.
   */
  lemma {:induction false} AtMostOneSignature(text: Text, first: Contract, steps: seq<Step>)
    requires New(first)
    ensures Sound(text, first, Run(text, World(first, map[], []), steps))
    ensures |Run(text, World(first, map[], []), steps).accepted| <= 1
    ensures Sane(text) && Run(text, World(first, map[], []), steps).row.signature.Some? ==>
      Entitled(text, first, Run(text, World(first, map[], []), steps).row.signature.value.email)
  {
    if steps != [] {
      AtMostOneSignature(text, first, steps[..|steps| - 1]);
      StepIsSound(text, first, Run(text, World(first, map[], []), steps[..|steps| - 1]), steps[|steps| - 1]);
    }
    var row := Run(text, World(first, map[], []), steps).row;
    if Sane(text) && row.signature.Some? { CheckPassesIff(text, first, row.signature.value.email, 0); }
  }

  /** A request passes its checks only within a week of the send it answers. */
  lemma ChecksPassWithinAWeek(text: Text, first: Contract, w: World, signer: nat)
    requires Sound(text, first, w) && signer in w.signers && w.signers[signer].Checked?
    ensures var Checked(_, loaded, signature) := w.signers[signer];
      loaded.sentAt.Some? && signature.at <= loaded.sentAt.value + 604_800
  {
  }

  /** A look-up finds the contract by its own live token, of at least 16 characters, and by no other. */
  lemma LookUpFindsIff(text: Text, first: Contract, w: World, signer: nat, token: string)
    requires Sound(text, first, w)
    ensures signer in Next(text, w, LookUp(signer, token)).signers <==> |token| >= 16 && w.row.signToken == Some(token)
    ensures signer in Next(text, w, LookUp(signer, token)).signers ==> w.row.status == Sent
  {
  }

  /** The daily flip activates exactly the signed contract whose start date has come. */
  lemma FlipsWhenDue(text: Text, first: Contract, w: World, today: int)
    requires Sound(text, first, w)
    ensures var flipped := Next(text, w, Flip(today)).row;
      && (flipped.status == Active <==>
            w.row.status == Active || (w.row.status == Signed && w.row.startDate.Some? && w.row.startDate.value <= today))
      && flipped == w.row.(status := flipped.status) && (flipped.status == w.row.status || flipped.status == Active)
  {
  }

  lemma StepIsSound(text: Text, first: Contract, w: World, step: Step)
    requires Sound(text, first, w)
    ensures Sound(text, first, Next(text, w, step))
  {
  }

  /** Once a signature is on file, no step changes it, and no step reopens the contract. */
  lemma {:induction false} SignaturesAreFinal(text: Text, first: Contract, w: World, steps: seq<Step>)
    requires Sound(text, first, w) && IsSigned(w.row)
    ensures Run(text, w, steps).row.signature == w.row.signature
    ensures IsSigned(Run(text, w, steps).row) && Sound(text, first, Run(text, w, steps))
    ensures Run(text, w, steps).accepted == w.accepted
  {
    if steps != [] {
      SignaturesAreFinal(text, first, w, steps[..|steps| - 1]);
      StepIsSound(text, first, Run(text, w, steps[..|steps| - 1]), steps[|steps| - 1]);
    }
  }

  ghost predicate NeverMints(steps: seq<Step>, token: string) {
    forall i :: 0 <= i < |steps| && steps[i].Send? ==> steps[i].token != token
  }

  /** A re-send kills the old link for good: nobody who opens it from then on gets anywhere. */
  lemma {:induction false} OldLinksAreDead(
    text: Text, w: World, newToken: string, now: int, stale: string, steps: seq<Step>, signer: nat)
    requires w.row.status in {Draft, Sent} && stale != newToken && NeverMints(steps, stale)
    ensures var later := Run(text, Next(text, w, Send(newToken, now, Queued, true)), steps);
      later.row.signToken != Some(stale) && signer !in Next(text, later, LookUp(signer, stale)).signers
  {
    if steps != [] {
      OldLinksAreDead(text, w, newToken, now, stale, steps[..|steps| - 1], signer);
    }
  }

  /** The request holds the old link, and what it loaded lets this signature pass its checks. */
  predicate MayStillSign(text: Text, w: World, signer: nat, stale: string, signature: Signature) {
    && signer in w.signers && w.signers[signer].token == stale
    && CheckSigner(text, w.signers[signer].loaded, signature.email, signature.at).None?
    && (w.signers[signer].Checked? ==> w.signers[signer].signature == signature)
  }

  /** After a re-send, requests under the old link are those it had before, at most further on. */
  ghost predicate OnlyKnown(text: Text, w: World, later: World, stale: string) {
    && later.row.signToken != Some(stale)
    && (forall i :: i in later.signers && later.signers[i].token == stale ==>
          && i in w.signers && w.signers[i].token == stale && w.signers[i].loaded == later.signers[i].loaded
          && (later.signers[i].Checked? ==> MayStillSign(text, w, i, stale, later.signers[i].signature))
          && (later.signers[i].Found? ==> w.signers[i].Found?))
    && (forall k :: 0 <= k < |later.accepted| && later.accepted[k].token == stale ==>
          MayStillSign(text, w, later.accepted[k].signer, stale, later.accepted[k].signature))
  }

  lemma StepKeepsKnown(text: Text, w: World, later: World, stale: string, step: Step)
    requires OnlyKnown(text, w, later, stale) && (step.Send? ==> step.token != stale)
    ensures OnlyKnown(text, w, Next(text, later, step), stale)
  {
    var next := Next(text, later, step);
    if step.Write? && |next.accepted| > |later.accepted| && later.signers[step.signer].token == stale {
      assert MayStillSign(text, w, step.signer, stale, later.signers[step.signer].signature);
    }
  }

  lemma {:induction false} RunKeepsKnown(text: Text, w: World, later: World, stale: string, steps: seq<Step>)
    requires OnlyKnown(text, w, later, stale) && NeverMints(steps, stale)
    ensures OnlyKnown(text, w, Run(text, later, steps), stale)
  {
    if steps != [] {
      RunKeepsKnown(text, w, later, stale, steps[..|steps| - 1]);
      StepKeepsKnown(text, w, Run(text, later, steps[..|steps| - 1]), stale, steps[|steps| - 1]);
    }
  }

  /** Some continuation in which this signature is accepted by the old link. */
  ghost predicate CanSignBy(text: Text, w: World, signer: nat, stale: string, signature: Signature) {
    exists steps :: NeverMints(steps, stale) && Acceptance(signer, stale, signature) in Run(text, w, steps).accepted
  }

  /** What is left for the request to do. */
  function Finish(w: World, signer: nat, signature: Signature): seq<Step>
    requires signer in w.signers
  {
    if w.signers[signer].Checked? then [Write(signer, true)] else [Check(signer, signature), Write(signer, true)]
  }

  lemma FinishSigns(text: Text, w: World, signer: nat, stale: string, signature: Signature)
    requires MayStillSign(text, w, signer, stale, signature) && w.row.status == Sent
    ensures Run(text, w, Finish(w, signer, signature)).accepted == w.accepted + [Acceptance(signer, stale, signature)]
  {
    var steps, checks := Finish(w, signer, signature), [Check(signer, signature)];
    if w.signers[signer].Checked? {
      assert steps[..|steps| - 1] == [];
    } else {
      assert steps[..|steps| - 1] == checks && checks[..|checks| - 1] == [];
      assert Run(text, w, checks) == Next(text, w, Check(signer, signature));
    }
  }

  /**
   * A re-send does not stop a signer who opened the old link before it: the UPDATE is guarded by
   * status, not by token. By the old link a signature can be accepted after the re-send if and only
   * if its request had looked the contract up before, and the row it loaded passes the checks.
   */
  lemma SupersededLinkSignsIff(
    text: Text, first: Contract, w: World, newToken: string, now: int, signer: nat, stale: string, signature: Signature)
    requires Sound(text, first, w) && w.row.status in {Draft, Sent} && stale != newToken
    ensures CanSignBy(text, Next(text, w, Send(newToken, now, Queued, true)), signer, stale, signature)
      <==> MayStillSign(text, w, signer, stale, signature)
  {
    var resent := Next(text, w, Send(newToken, now, Queued, true));
    if MayStillSign(text, w, signer, stale, signature) {
      FinishSigns(text, resent, signer, stale, signature);
      assert NeverMints(Finish(resent, signer, signature), stale);
    }
    if CanSignBy(text, resent, signer, stale, signature) {
      var steps :| NeverMints(steps, stale) && Acceptance(signer, stale, signature) in Run(text, resent, steps).accepted;
      CheckedMayStillSign(text, first, w, stale);
      RunKeepsKnown(text, w, resent, stale, steps);
    }
  }

  lemma CheckedMayStillSign(text: Text, first: Contract, w: World, stale: string)
    requires Sound(text, first, w)
    ensures forall i :: i in w.signers && w.signers[i].token == stale && w.signers[i].Checked? ==>
      MayStillSign(text, w, i, stale, w.signers[i].signature)
  {
  }

  /** It happens to any contract that has been sent: look up, re-send, sign by the old link. */
  lemma SupersededLinkIsUsed(text: Text, first: Contract, stale: string, newToken: string, signature: Signature)
    requires New(first) && |stale| >= 16 && MaySign(text, first, signature.email) && signature.at <= SIGN_TOKEN_TTL
    ensures
      var begun := Next(text, World(first, map[], []), Send(stale, 0, Queued, true));
      var resent := Next(text, Next(text, begun, LookUp(0, stale)), Send(newToken, 1, Queued, true));
      var signed := Next(text, Next(text, resent, Check(0, signature)), Write(0, true));
      && resent.row.signToken == Some(newToken)
      && signed.accepted == [Acceptance(0, stale, signature)] && signed.row.signature == Some(signature)
  {
    var row := SentOut(first, stale, 0, Queued);
    var begun := Next(text, World(first, map[], []), Send(stale, 0, Queued, true));
    var found := Next(text, begun, LookUp(0, stale));
    assert found.signers[0] == Found(stale, row);
    var resent := Next(text, found, Send(newToken, 1, Queued, true));
    assert MatchSigner(text, row, signature.email) == MatchSigner(text, first, signature.email);
    var checked := Next(text, resent, Check(0, signature));
    assert checked.signers[0] == Checked(stale, row, signature);
  }
}
