/**
 * The state-changing views of contracts/views.py, one method per POST path (and the GET path of
 * contract_sign, which issues a code). Each either refuses and leaves every table as it was, or
 * performs exactly the row operations the view performs, in order. An exception the view does not
 * catch is a ServerError; the rows already saved by then stay saved, as there is no transaction.
 */
module Views {
  import opened Models
  import opened Database
  import opened ViewHelpers

  datatype Response =
    | NotFound                    // get_object_or_404 found no row
    | Refused(why: Refusal)       // redirect or JSON failure with an error message
    | Done                        // the success redirect or JSON success
    | Created(id: Id)             // redirect to the detail page of a new contract
    | Recorded(completed: bool)   // a signature or approval was recorded; completed: mark_as_completed returned True
    | ServerError                 // an exception the view does not catch

  function Or<T>(o: Option<T>, default: T): T
  {
    if o.Some? then o.value else default
  }

  /** The row Contract.objects.create makes, with is_editable = True saved at once; the key is assigned on insertion. */
  function NewContract(creator: Id, title: string, content: string, template: Option<Id>, visibility: Visibility,
                       isSelf: bool, start: Date, months: Option<int>, isIndefinite: bool, now: Timestamp): (k: Contract)
    ensures k.status == Draft && k.isEditable && !k.systemApproved && k.completedAt.None?
    ensures k.creator == creator && k.createdAt == now
  {
    Contract(0, creator, title, content, template, Draft, visibility, isSelf, true, false, start, months, isIndefinite, now, None)
  }

  /** The party row of a registered user, with no manual name or e-mail. */
  function UserParty(id: Id, c: Id, u: Id, role: Role): (p: Party)
    ensures p.invitationStatus == Pending && p.user == Some(u) && p.declinedAt.None?
  {
    NewParty(id, c, Some(u), "", "", role)
  }

  /** ContractParty.objects.create for a registered user followed by ContractSignature.objects.create with a fresh code. */
  method EnrolParty(db: Db, c: Id, u: Id, role: Role, code: string) returns (r: Insertion)
    requires db.Valid() && c in ContractIds(db.contracts) && IsSignatureCode(code)
    modifies db`parties, db`signatures, db`nextId
    ensures db.Valid()
    ensures r.IntegrityError? <==> PartyIndex(old(db.parties), c, u).Some?
    ensures r.IntegrityError? ==> db.parties == old(db.parties) && db.signatures == old(db.signatures) && db.nextId == old(db.nextId)
    ensures r.Inserted? ==> (r.id == old(db.nextId) && db.nextId == old(db.nextId) + 2
                             && db.parties == old(db.parties) + [UserParty(r.id, c, u, role)]
                             && db.signatures == old(db.signatures) + [NewSignature(r.id + 1, c, r.id, u, Some(code))])
  {
    KeysBelowNext(db.contracts, db.parties, db.signatures, db.approvals, db.nextId);
    r := db.InsertParty(c, Some(u), "", "", role);
    if r.IntegrityError? {
      return;
    }
    assert (r.id, c) in PartyKeys(db.parties) by {
      assert db.parties[|db.parties| - 1].id == r.id;
    }
    var s := db.InsertSignature(c, r.id, u, Some(code));
  }

  /**
   * The second party of contract_create and declined_contract_recreate: skipped for a self
   * contract or an empty field; User.objects.get raises ValueError on a malformed id, which the
   * views do not catch, and DoesNotExist for an unknown one, which they ignore.
   */
  datatype SecondPlan = NoSecond | SecondCrash | Second(u: Id)

  function SecondPartyPlan(users: seq<User>, isSelf: bool, field: IntField): (plan: SecondPlan)
    ensures plan.NoSecond? <==> isSelf || !IntFieldTruthy(field) || (field.Given? && (field.n < 0 || UserIndex(users, field.n).None?))
    ensures plan.SecondCrash? <==> !isSelf && field.Malformed?
    ensures plan.Second? ==> !isSelf && field == IntField.Given(plan.u) && UserIndex(users, plan.u).Some?
  {
    if isSelf || !IntFieldTruthy(field) then NoSecond
    else match field
      case Given(n) => if n >= 0 && UserIndex(users, n).Some? then Second(n) else NoSecond
      case _ => SecondCrash
  }

  /** Whether enrolling the parties of a new contract runs to the end: the creator naming themself breaks unique_together. */
  predicate EnrolmentSucceeds(plan: SecondPlan, requester: Id)
  {
    plan.NoSecond? || (plan.Second? && plan.u != requester)
  }

  /**
   * The party and signature tables after a new contract c, created with next key n, got its
   * creator's party and signature and, where the plan names another user, the second party's.
   */
  predicate Enrolled(ps0: seq<Party>, ss0: seq<Signature>, ps: seq<Party>, ss: seq<Signature>, n: nat, c: Id, requester: Id,
                     plan: SecondPlan, creatorCode: string, secondCode: string)
  {
    var creator := UserParty(n, c, requester, PartyRole);
    var creatorSignature := NewSignature(n + 1, c, n, requester, Some(creatorCode));
    if plan.Second? && plan.u != requester then
      ps == ps0 + [creator, UserParty(n + 2, c, plan.u, PartyRole)]
      && ss == ss0 + [creatorSignature, NewSignature(n + 3, c, n + 2, plan.u, Some(secondCode))]
    else
      ps == ps0 + [creator] && ss == ss0 + [creatorSignature]
  }

  /** The creator's enrolment, then the second party's, on a contract that has no party yet. */
  method EnrolCreatorAndSecond(db: Db, c: Id, requester: Id, plan: SecondPlan, creatorCode: string, secondCode: string)
    returns (ok: bool)
    requires db.Valid() && c in ContractIds(db.contracts) && IsSignatureCode(creatorCode) && IsSignatureCode(secondCode)
    requires forall i :: 0 <= i < |db.parties| ==> db.parties[i].contract != c
    modifies db`parties, db`signatures, db`nextId
    ensures db.Valid()
    ensures ok == EnrolmentSucceeds(plan, requester)
    ensures Enrolled(old(db.parties), old(db.signatures), db.parties, db.signatures, old(db.nextId), c, requester, plan, creatorCode, secondCode)
  {
    var e := EnrolParty(db, c, requester, PartyRole, creatorCode);
    assert e.Inserted?;
    assert db.parties[|db.parties| - 1].contract == c && db.parties[|db.parties| - 1].user == Some(requester);
    match plan
    case NoSecond => ok := true;
    case SecondCrash => ok := false;
    case Second(u) =>
      var e2 := EnrolParty(db, c, u, PartyRole, secondCode);
      ok := e2.Inserted?;
  }

  // ---------------------------------------------------------------------------------
  // contract_create
  // ---------------------------------------------------------------------------------

  /** The fields contract_create reads from the POST. */
  datatype CreateForm = CreateForm(
    title: Option<string>,
    content: string,
    template: IntField,
    visibility: Option<Visibility>,
    secondParty: IntField,
    isSelfContract: bool,     // contract_type == 'self'
    startDate: DateField,
    duration: IntField,
    isIndefinite: bool)       // is_indefinite == 'on'

  /** The template lookup of contract_create: ContractTemplate.DoesNotExist is ignored, a malformed id is not caught. */
  datatype TemplatePick = NoTemplate | TemplateCrash | UseTemplate(id: Id)

  function PickTemplate(templates: seq<Id>, field: IntField): (t: TemplatePick)
    ensures t.TemplateCrash? <==> field.Malformed?
    ensures t.UseTemplate? <==> field.Given? && field.n >= 0 && field.n in templates
    ensures t.UseTemplate? ==> t.id == field.n
  {
    match field
    case Malformed => TemplateCrash
    case Given(n) => if n >= 0 && n in templates then UseTemplate(n) else NoTemplate
    case _ => NoTemplate
  }

  /** The visibility contract_create stores: private for a self contract, whatever was posted. */
  function CreateVisibility(f: CreateForm): (v: Visibility)
    ensures f.isSelfContract ==> v == Private
    ensures !f.isSelfContract ==> v == Or(f.visibility, Private)
  {
    if f.isSelfContract then Private else Or(f.visibility, Private)
  }

  /** The contract row contract_create saves once the form is accepted. */
  function CreatedRow(f: CreateForm, requester: Id, today: Date, templates: seq<Id>, now: Timestamp): Contract
    requires CheckSchedule(f.startDate, f.duration, f.isIndefinite, today).Scheduled? && f.title.Some?
  {
    var s := CheckSchedule(f.startDate, f.duration, f.isIndefinite, today);
    var t := PickTemplate(templates, f.template);
    NewContract(requester, f.title.value, f.content, if t.UseTemplate? then Some(t.id) else None,
                CreateVisibility(f), f.isSelfContract, s.start, s.months, f.isIndefinite, now)
  }

  /** What contract_create stores for the timing and visibility of an accepted form. */
  lemma CreatedRowMeaning(f: CreateForm, requester: Id, today: Date, templates: seq<Id>, now: Timestamp)
    requires CheckSchedule(f.startDate, f.duration, f.isIndefinite, today).Scheduled? && f.title.Some?
    ensures var k := CreatedRow(f, requester, today, templates, now);
      k.status == Draft && k.isEditable && k.creator == requester
      && (f.isSelfContract ==> k.visibility == Private)
      && !DateBefore(k.startDate, today)
      && (k.durationMonths.None? <==> f.isIndefinite)
      && (k.durationMonths.Some? ==> 1 <= k.durationMonths.value <= MaxDurationMonths)
  {
  }

  /** The form passes contract_create's validation and carries a title, so the contract row is saved. */
  predicate CreateGetsPastValidation(f: CreateForm, today: Date)
  {
    CheckSchedule(f.startDate, f.duration, f.isIndefinite, today).Scheduled? && f.title.Some?
  }

  /**
   * contract_create (POST): validate, save the contract, attach the template, enrol the creator
   * with a signature code, then the second party of a normal contract.
   */
  method ContractCreate(db: Db, requester: Id, f: CreateForm, today: Date, now: Timestamp, creatorCode: string, secondCode: string)
    returns (r: Response)
    requires db.Valid() && IsSignatureCode(creatorCode) && IsSignatureCode(secondCode)
    modifies db
    ensures db.Valid()
    ensures db.users == old(db.users) && db.templates == old(db.templates) && db.approvals == old(db.approvals)
    ensures CheckSchedule(f.startDate, f.duration, f.isIndefinite, today).Crashed? ==> r == ServerError && unchanged(db)
    ensures CheckSchedule(f.startDate, f.duration, f.isIndefinite, today).Rejected? ==>
              r == Refused(CheckSchedule(f.startDate, f.duration, f.isIndefinite, today).why) && unchanged(db)
    ensures CheckSchedule(f.startDate, f.duration, f.isIndefinite, today).Scheduled? && f.title.None? ==> r == ServerError && unchanged(db)
    ensures CreateGetsPastValidation(f, today) ==>
              db.contracts == old(db.contracts) + [CreatedRow(f, requester, today, old(db.templates), now).(id := old(db.nextId))]
    ensures CreateGetsPastValidation(f, today) && PickTemplate(old(db.templates), f.template).TemplateCrash? ==>
              r == ServerError && db.parties == old(db.parties) && db.signatures == old(db.signatures)
    ensures CreateGetsPastValidation(f, today) && !PickTemplate(old(db.templates), f.template).TemplateCrash? ==>
              r == (if EnrolmentSucceeds(SecondPartyPlan(old(db.users), f.isSelfContract, f.secondParty), requester)
                    then Created(old(db.nextId)) else ServerError)
              && Enrolled(old(db.parties), old(db.signatures), db.parties, db.signatures, old(db.nextId) + 1, old(db.nextId), requester,
                          SecondPartyPlan(old(db.users), f.isSelfContract, f.secondParty), creatorCode, secondCode)
  {
    var sched := CheckSchedule(f.startDate, f.duration, f.isIndefinite, today);
    if sched.Crashed? {
      return ServerError;
    }
    if sched.Rejected? {
      return Refused(sched.why);
    }
    if f.title.None? {
      return ServerError;
    }
    KeysBelowNext(db.contracts, db.parties, db.signatures, db.approvals, db.nextId);
    var c := db.InsertContract(CreatedRow(f, requester, today, db.templates, now));
    assert c in ContractIds(db.contracts) by {
      assert db.contracts[|db.contracts| - 1].id == c;
    }
    if PickTemplate(db.templates, f.template).TemplateCrash? {
      return ServerError;
    }
    var ok := EnrolCreatorAndSecond(db, c, requester, SecondPartyPlan(db.users, f.isSelfContract, f.secondParty), creatorCode, secondCode);
    r := if ok then Created(c) else ServerError;
  }

  // ---------------------------------------------------------------------------------
  // declined_contract_recreate
  // ---------------------------------------------------------------------------------

  /** The fields declined_contract_recreate reads from the POST; an absent title, content or visibility keeps the original's. */
  datatype RecreateForm = RecreateForm(
    title: Option<string>,
    content: Option<string>,
    visibility: Option<Visibility>,
    isSelfContract: bool,     // is_self_contract == 'on'
    startDate: DateField,
    duration: IntField,
    isIndefinite: bool,
    secondParty: IntField)

  /** int(request.POST.get('duration_months', 12)): None where int() raises, which the view does not catch. */
  function RecreateDuration(field: IntField): (months: Option<int>)
    ensures field.Absent? ==> months == Some(12)
    ensures field.Given? ==> months == Some(field.n)
    ensures (field.Empty? || field.Malformed?) <==> months.None?
  {
    match field
    case Absent => Some(12)
    case Given(n) => Some(n)
    case _ => None
  }

  /** The start date of a recreated contract: the posted one, today when none is posted; None where strptime raises. */
  function RecreateStart(field: DateField, today: Date): (start: Option<Date>)
    ensures field.Given? ==> start == Some(field.date)
    ensures !DateFieldTruthy(field) ==> start == Some(today)
    ensures field.Malformed? <==> start.None?
  {
    match field
    case Given(d) => Some(d)
    case Malformed => None
    case _ => Some(today)
  }

  /** The new contract row of declined_contract_recreate: none of contract_create's checks or forced privacy apply. */
  function RecreatedRow(original: Contract, f: RecreateForm, months: int, start: Date, now: Timestamp): (k: Contract)
    ensures k.status == Draft && k.isEditable && k.creator == original.creator && k.template.None?
    ensures k.durationMonths == Some(months) && k.startDate == start && k.isSelfContract == f.isSelfContract
    ensures k.title == Or(f.title, original.title) && k.content == Or(f.content, original.content)
    ensures k.visibility == Or(f.visibility, original.visibility)
  {
    NewContract(original.creator, Or(f.title, original.title), Or(f.content, original.content), None,
                Or(f.visibility, original.visibility), f.isSelfContract, start, Some(months), f.isIndefinite, now)
  }

  /** The recreated row keeps a duration contract_create refuses, and a public self contract. */
  lemma RecreateSkipsCreateChecks(original: Contract, now: Timestamp, today: Date)
    ensures var f := RecreateForm(None, None, Some(Public), true, DateField.Absent, IntField.Given(0), false, IntField.Absent);
      var k := RecreatedRow(original, f, RecreateDuration(f.duration).value, RecreateStart(f.startDate, today).value, now);
      k.isSelfContract && k.visibility == Public && k.durationMonths == Some(0)
      && CheckSchedule(DateField.Given(today), f.duration, f.isIndefinite, today) == Rejected(InvalidDuration)
  {
  }

  /**
   * declined_contract_recreate (POST): only for the requester's own contract with a declined
   * party; saves a new contract with the creator's party and signature and maybe a second party,
   * then archives the original, which is kept.
   */
  method DeclinedContractRecreate(db: Db, requester: Id, pk: Id, f: RecreateForm, today: Date, now: Timestamp,
                                  creatorCode: string, secondCode: string)
    returns (r: Response)
    requires db.Valid() && IsSignatureCode(creatorCode) && IsSignatureCode(secondCode)
    modifies db
    ensures db.Valid()
    ensures db.users == old(db.users) && db.templates == old(db.templates) && db.approvals == old(db.approvals)
    ensures OwnedContractIndex(old(db.contracts), pk, requester).None? ==> r == NotFound && unchanged(db)
    ensures OwnedContractIndex(old(db.contracts), pk, requester).Some? && !HasDeclinedParties(old(db.parties), pk) ==>
              r == Refused(NotDeclined) && unchanged(db)
    ensures OwnedContractIndex(old(db.contracts), pk, requester).Some? && HasDeclinedParties(old(db.parties), pk)
            && (RecreateDuration(f.duration).None? || RecreateStart(f.startDate, today).None?)
            ==> r == ServerError && unchanged(db)
    ensures OwnedContractIndex(old(db.contracts), pk, requester).Some? && HasDeclinedParties(old(db.parties), pk)
            && RecreateDuration(f.duration).Some? && RecreateStart(f.startDate, today).Some? ==>
              var i := OwnedContractIndex(old(db.contracts), pk, requester).value;
              var plan := SecondPartyPlan(old(db.users), f.isSelfContract, f.secondParty);
              var row := RecreatedRow(old(db.contracts)[i], f, RecreateDuration(f.duration).value, RecreateStart(f.startDate, today).value, now);
              Enrolled(old(db.parties), old(db.signatures), db.parties, db.signatures, old(db.nextId) + 1, old(db.nextId), requester,
                       plan, creatorCode, secondCode)
              && if EnrolmentSucceeds(plan, requester) then
                   r == Created(old(db.nextId))
                   && db.contracts == (old(db.contracts) + [row.(id := old(db.nextId))])[i := old(db.contracts)[i].(status := Archived)]
                 else
                   r == ServerError && db.contracts == old(db.contracts) + [row.(id := old(db.nextId))]
  {
    var found := OwnedContractIndex(db.contracts, pk, requester);
    if found.None? {
      return NotFound;
    }
    var i := found.value;
    var original := db.contracts[i];
    if !HasDeclinedParties(db.parties, pk) {
      return Refused(NotDeclined);
    }
    var months := RecreateDuration(f.duration);
    if months.None? {
      return ServerError;
    }
    var start := RecreateStart(f.startDate, today);
    if start.None? {
      return ServerError;
    }
    r := SaveRecreated(db, requester, i, RecreatedRow(original, f, months.value, start.value, now),
                       SecondPartyPlan(db.users, f.isSelfContract, f.secondParty), creatorCode, secondCode);
  }

  /** The saving half of declined_contract_recreate: the new contract, its parties, then the original archived. */
  method SaveRecreated(db: Db, requester: Id, i: nat, row: Contract, plan: SecondPlan, creatorCode: string, secondCode: string)
    returns (r: Response)
    requires db.Valid() && i < |db.contracts| && IsSignatureCode(creatorCode) && IsSignatureCode(secondCode)
    modifies db
    ensures db.Valid()
    ensures db.users == old(db.users) && db.templates == old(db.templates) && db.approvals == old(db.approvals)
    ensures Enrolled(old(db.parties), old(db.signatures), db.parties, db.signatures, old(db.nextId) + 1, old(db.nextId), requester,
                     plan, creatorCode, secondCode)
    ensures if EnrolmentSucceeds(plan, requester) then
              r == Created(old(db.nextId))
              && db.contracts == (old(db.contracts) + [row.(id := old(db.nextId))])[i := old(db.contracts)[i].(status := Archived)]
            else
              r == ServerError && db.contracts == old(db.contracts) + [row.(id := old(db.nextId))]
  {
    var original := db.contracts[i];
    KeysBelowNext(db.contracts, db.parties, db.signatures, db.approvals, db.nextId);
    var c := db.InsertContract(row);
    assert c in ContractIds(db.contracts) by {
      assert db.contracts[|db.contracts| - 1].id == c;
    }
    var ok := EnrolCreatorAndSecond(db, c, requester, plan, creatorCode, secondCode);
    if !ok {
      return ServerError;
    }
    db.UpdateContract(i, original.(status := Archived));
    return Created(c);
  }

  // ---------------------------------------------------------------------------------
  // contract_edit, contract_delete, remove_contract_party, contract_decline
  // ---------------------------------------------------------------------------------

  /**
   * contract_edit (POST): the requester's own contract, if check_integrity and is_editable_check
   * pass, gets the posted title, content and visibility (private by default). A missing title or
   * content breaks the NOT NULL columns on save.
   */
  method ContractEdit(db: Db, requester: Id, pk: Id, title: Option<string>, content: Option<string>, visibility: Option<Visibility>)
    returns (r: Response)
    requires db.Valid()
    modifies db`contracts
    ensures db.Valid()
    ensures OwnedContractIndex(old(db.contracts), pk, requester).None? ==> r == NotFound && db.contracts == old(db.contracts)
    ensures OwnedContractIndex(old(db.contracts), pk, requester).Some? ==>
              var i := OwnedContractIndex(old(db.contracts), pk, requester).value;
              var k := old(db.contracts)[i];
              if !IntegrityHolds(k) then r == Refused(IntegrityBroken) && db.contracts == old(db.contracts)
              else if !IsEditableCheck(k, db.parties, db.signatures) then r == Refused(NotEditable) && db.contracts == old(db.contracts)
              else if title.None? || content.None? then r == ServerError && db.contracts == old(db.contracts)
              else r == Done
                   && db.contracts == old(db.contracts)[i := k.(title := title.value, content := content.value,
                                                                visibility := Or(visibility, Private))]
  {
    var found := OwnedContractIndex(db.contracts, pk, requester);
    if found.None? {
      return NotFound;
    }
    var i := found.value;
    var k := db.contracts[i];
    if !IntegrityHolds(k) {
      return Refused(IntegrityBroken);
    }
    if !IsEditableCheck(k, db.parties, db.signatures) {
      return Refused(NotEditable);
    }
    if title.None? || content.None? {
      return ServerError;
    }
    db.UpdateContract(i, k.(title := title.value, content := content.value, visibility := Or(visibility, Private)));
    return Done;
  }

  /** contract_delete (POST): the requester's own contract, if can_be_deleted holds, goes with everything that cascades from it. */
  method ContractDelete(db: Db, requester: Id, pk: Id) returns (r: Response)
    requires db.Valid()
    modifies db`contracts, db`parties, db`signatures, db`approvals
    ensures db.Valid()
    ensures OwnedContractIndex(old(db.contracts), pk, requester).None? ==> r == NotFound && unchanged(db)
    ensures OwnedContractIndex(old(db.contracts), pk, requester).Some? ==>
              if !CanBeDeleted(old(db.contracts)[OwnedContractIndex(old(db.contracts), pk, requester).value]) then
                r == Refused(NotDeletable) && unchanged(db)
              else
                r == Done
                && db.contracts == ContractsWithout(old(db.contracts), pk) && db.parties == PartiesWithout(old(db.parties), pk)
                && db.signatures == SignaturesWithout(old(db.signatures), pk) && db.approvals == ApprovalsWithout(old(db.approvals), pk)
  {
    var found := OwnedContractIndex(db.contracts, pk, requester);
    if found.None? {
      return NotFound;
    }
    if !CanBeDeleted(db.contracts[found.value]) {
      return Refused(NotDeletable);
    }
    db.DeleteContract(pk);
    return Done;
  }

  /** remove_contract_party (POST): a party of the requester's own contract, if check_removal_integrity passes, goes with its signatures. */
  method RemoveContractParty(db: Db, requester: Id, pk: Id, pid: Id) returns (r: Response)
    requires db.Valid()
    modifies db`parties, db`signatures
    ensures db.Valid()
    ensures OwnedContractIndex(old(db.contracts), pk, requester).None? || PartyIdIndex(old(db.parties), pid, pk).None? ==>
              r == NotFound && unchanged(db)
    ensures OwnedContractIndex(old(db.contracts), pk, requester).Some? && PartyIdIndex(old(db.parties), pid, pk).Some? ==>
              var k := old(db.contracts)[OwnedContractIndex(old(db.contracts), pk, requester).value];
              var p := old(db.parties)[PartyIdIndex(old(db.parties), pid, pk).value];
              if !RemovalIntegrity(k, p, old(db.signatures), db.approvals) then r == Refused(RemovalBlocked) && unchanged(db)
              else r == Done && db.parties == PartiesOtherThan(old(db.parties), pid) && db.signatures == SignaturesNotOf(old(db.signatures), pid)
  {
    var found := OwnedContractIndex(db.contracts, pk, requester);
    if found.None? {
      return NotFound;
    }
    var j := PartyIdIndex(db.parties, pid, pk);
    if j.None? {
      return NotFound;
    }
    if !RemovalIntegrity(db.contracts[found.value], db.parties[j.value], db.signatures, db.approvals) {
      return Refused(RemovalBlocked);
    }
    db.DeleteParty(pid);
    return Done;
  }

  /**
   * contract_decline (POST): the requester's party on the contract becomes declined, with the
   * stripped reason and the decline time; no other row changes and the contract stays.
   */
  method ContractDecline(db: Db, requester: Id, pk: Id, reason: Option<string>, now: Timestamp) returns (r: Response)
    requires db.Valid()
    modifies db`parties
    ensures db.Valid()
    ensures ContractIndex(old(db.contracts), pk).None? || PartyIndex(old(db.parties), pk, requester).None? ==>
              r == NotFound && db.parties == old(db.parties)
    ensures ContractIndex(old(db.contracts), pk).Some? && PartyIndex(old(db.parties), pk, requester).Some? ==>
              var j := PartyIndex(old(db.parties), pk, requester).value;
              r == Done
              && db.parties == old(db.parties)[j := old(db.parties)[j].(invitationStatus := Declined,
                                                                        declineReason := Strip(Or(reason, "")),
                                                                        declinedAt := Some(now))]
  {
    if ContractIndex(db.contracts, pk).None? {
      return NotFound;
    }
    var j := PartyIndex(db.parties, pk, requester);
    if j.None? {
      return NotFound;
    }
    var p := db.parties[j.value];
    db.UpdateParty(j.value, p.(invitationStatus := Declined, declineReason := Strip(Or(reason, "")), declinedAt := Some(now)));
    return Done;
  }

  // ---------------------------------------------------------------------------------
  // contract_sign, verify_signature_code, contract_approve
  // ---------------------------------------------------------------------------------

  /**
   * The code issuing block at the end of contract_sign: get_or_create the party's signature with
   * a fresh code, or overwrite the code of the one that exists. Nothing else of the row changes.
   */
  method IssueSignatureCode(db: Db, c: Id, pid: Id, u: Id, code: string)
    requires db.Valid() && (pid, c) in PartyKeys(db.parties) && IsSignatureCode(code)
    modifies db`signatures, db`nextId
    ensures db.Valid()
    ensures SignatureIndex(old(db.signatures), c, pid).Some? ==>
              var k := SignatureIndex(old(db.signatures), c, pid).value;
              db.signatures == old(db.signatures)[k := old(db.signatures)[k].(code := Some(code))] && db.nextId == old(db.nextId)
    ensures SignatureIndex(old(db.signatures), c, pid).None? ==>
              db.signatures == old(db.signatures) + [NewSignature(old(db.nextId), c, pid, u, Some(code))]
              && db.nextId == old(db.nextId) + 1
  {
    var found := SignatureIndex(db.signatures, c, pid);
    if found.Some? {
      var k := found.value;
      db.UpdateSignature(k, db.signatures[k].(code := Some(code)));
    } else {
      var ins := db.InsertSignature(c, pid, u, Some(code));
    }
  }

  /** The signature table once contract_sign has found, or created without a code, the party's signature. */
  function WithSignatureRow(ss: seq<Signature>, next: nat, c: Id, pid: Id, u: Id): seq<Signature>
  {
    if SignatureIndex(ss, c, pid).Some? then ss else ss + [NewSignature(next, c, pid, u, None)]
  }

  function SignatureRowIndex(ss: seq<Signature>, c: Id, pid: Id): nat
  {
    if SignatureIndex(ss, c, pid).Some? then SignatureIndex(ss, c, pid).value else |ss|
  }

  /** The signature found or created has the party's key and sits where the view will update it. */
  lemma WithSignatureRowMeaning(ss: seq<Signature>, next: nat, c: Id, pid: Id, u: Id)
    ensures var k := SignatureRowIndex(ss, c, pid);
      var ss1 := WithSignatureRow(ss, next, c, pid, u);
      k < |ss1| && ss1[k].contract == c && ss1[k].party == pid && ss1[..|ss|] == ss
      && (|ss1| == |ss| || (|ss1| == |ss| + 1 && k == |ss| && !ss1[k].isSigned && ss1[k].code.None?))
  {
  }

  /** The get-or-create of the party's signature at the start of contract_sign's POST path; k is its index. */
  method FindOrCreateSignature(db: Db, c: Id, pid: Id, u: Id) returns (k: nat)
    requires db.Valid() && (pid, c) in PartyKeys(db.parties)
    modifies db`signatures, db`nextId
    ensures db.Valid()
    ensures db.signatures == WithSignatureRow(old(db.signatures), old(db.nextId), c, pid, u)
    ensures k == SignatureRowIndex(old(db.signatures), c, pid)
    ensures SignatureIndex(db.signatures, c, pid) == Some(k)
  {
    WithSignatureRowMeaning(db.signatures, db.nextId, c, pid, u);
    k := SignatureRowIndex(db.signatures, c, pid);
    if SignatureIndex(db.signatures, c, pid).None? {
      var ins := db.InsertSignature(c, pid, u, None);
      assert SignatureIndex(db.signatures, c, pid) == Some(k) by {
        assert forall j :: 0 <= j < k ==> db.signatures[j] == old(db.signatures)[j];
      }
    }
  }

  /** The rest of contract_sign's POST path once the signature at index k is in hand. */
  method SignOrReissue(db: Db, i: nat, c: Id, pid: Id, k: nat, u: Id, submitted: Option<string>, newCode: string,
                       ip: Option<string>, now: Timestamp)
    returns (r: Response)
    requires db.Valid() && i < |db.contracts| && (pid, c) in PartyKeys(db.parties) && IsSignatureCode(newCode)
    requires SignatureIndex(db.signatures, c, pid) == Some(k)
    modifies db`contracts, db`signatures, db`nextId
    ensures db.Valid() && db.nextId == old(db.nextId)
    ensures old(db.signatures)[k].code == submitted ==>
              db.signatures == old(db.signatures)[k := old(db.signatures)[k].(isSigned := true, signedAt := Some(now), ipAddress := ip)]
              && r == Recorded(CanBeCompleted(old(db.contracts)[i], db.signatures, db.approvals))
              && db.contracts == (if r.completed then old(db.contracts)[i := old(db.contracts)[i].(status := Completed, completedAt := Some(now), isEditable := false)]
                                  else old(db.contracts))
    ensures old(db.signatures)[k].code != submitted ==>
              db.signatures == old(db.signatures)[k := old(db.signatures)[k].(code := Some(newCode))]
              && r == Refused(WrongCode) && db.contracts == old(db.contracts)
  {
    var sig := db.signatures[k];
    if sig.code == submitted {
      db.UpdateSignature(k, sig.(isSigned := true, signedAt := Some(now), ipAddress := ip));
      var completed := db.MarkAsCompleted(i, now);
      return Recorded(completed);
    }
    IssueSignatureCode(db, c, pid, u, newCode);
    return Refused(WrongCode);
  }

  /** The signature table after contract_sign's POST path: signed on a code match, a new code otherwise. */
  function AfterSignPost(ss: seq<Signature>, next: nat, c: Id, pid: Id, u: Id, submitted: Option<string>, newCode: string,
                         ip: Option<string>, now: Timestamp): seq<Signature>
  {
    var ss1 := WithSignatureRow(ss, next, c, pid, u);
    var k := SignatureRowIndex(ss, c, pid);
    WithSignatureRowMeaning(ss, next, c, pid, u);
    if ss1[k].code == submitted then ss1[k := ss1[k].(isSigned := true, signedAt := Some(now), ipAddress := ip)]
    else ss1[k := ss1[k].(code := Some(newCode))]
  }

  /**
   * contract_sign never unsigns a signature, and the only one it can sign is the requester's
   * party's, and only when the posted code equals the stored one.
   */
  lemma SignNeverUnsigns(ss: seq<Signature>, next: nat, c: Id, pid: Id, u: Id, submitted: Option<string>, newCode: string,
                         ip: Option<string>, now: Timestamp)
    ensures var ss' := AfterSignPost(ss, next, c, pid, u, submitted, newCode, ip, now);
      |ss'| >= |ss|
      && (forall j :: 0 <= j < |ss| && ss[j].isSigned ==> ss'[j].isSigned)
      && (forall j :: 0 <= j < |ss'| && ss'[j].isSigned && (j >= |ss| || !ss[j].isSigned) ==>
            j == SignatureRowIndex(ss, c, pid) && ss'[j].contract == c && ss'[j].party == pid
            && WithSignatureRow(ss, next, c, pid, u)[j].code == submitted)
  {
    WithSignatureRowMeaning(ss, next, c, pid, u);
  }

  /** A wrong code leaves every is_signed flag as it was. */
  lemma WrongCodeSignsNothing(ss: seq<Signature>, next: nat, c: Id, pid: Id, u: Id, submitted: Option<string>, newCode: string,
                              ip: Option<string>, now: Timestamp)
    requires WithSignatureRow(ss, next, c, pid, u)[SignatureRowIndex(ss, c, pid)].code != submitted
    ensures var ss' := AfterSignPost(ss, next, c, pid, u, submitted, newCode, ip, now);
      forall j :: 0 <= j < |ss| ==> ss'[j].isSigned == ss[j].isSigned
  {
    WithSignatureRowMeaning(ss, next, c, pid, u);
  }

  /**
   * contract_sign (POST): the requester's signature on the contract is signed when the stored code
   * equals the posted one, and the completion check follows; otherwise a new code is issued.
   */
  method ContractSign(db: Db, requester: Id, pk: Id, submitted: Option<string>, newCode: string,
                      forwardedFor: Option<string>, remoteAddr: Option<string>, now: Timestamp)
    returns (r: Response)
    requires db.Valid() && IsSignatureCode(newCode)
    modifies db`contracts, db`signatures, db`nextId
    ensures db.Valid()
    ensures ContractIndex(old(db.contracts), pk).None? || PartyIndex(db.parties, pk, requester).None? ==> r == NotFound && unchanged(db)
    ensures ContractIndex(old(db.contracts), pk).Some? && PartyIndex(db.parties, pk, requester).Some? ==>
              var i := ContractIndex(old(db.contracts), pk).value;
              var pid := db.parties[PartyIndex(db.parties, pk, requester).value].id;
              var ip := GetClientIp(forwardedFor, remoteAddr);
              db.signatures == AfterSignPost(old(db.signatures), old(db.nextId), pk, pid, requester, submitted, newCode, ip, now)
              && if WithSignatureRow(old(db.signatures), old(db.nextId), pk, pid, requester)[SignatureRowIndex(old(db.signatures), pk, pid)].code == submitted then
                   r == Recorded(CanBeCompleted(old(db.contracts)[i], db.signatures, db.approvals))
                   && db.contracts == (if r.completed then old(db.contracts)[i := old(db.contracts)[i].(status := Completed, completedAt := Some(now), isEditable := false)]
                                       else old(db.contracts))
                 else
                   r == Refused(WrongCode) && db.contracts == old(db.contracts)
  {
    var ci := ContractIndex(db.contracts, pk);
    if ci.None? {
      return NotFound;
    }
    var pj := PartyIndex(db.parties, pk, requester);
    if pj.None? {
      return NotFound;
    }
    var pid := db.parties[pj.value].id;
    assert (pid, pk) in PartyKeys(db.parties);
    var k := FindOrCreateSignature(db, pk, pid, requester);
    r := SignOrReissue(db, ci.value, pk, pid, k, requester, submitted, newCode, GetClientIp(forwardedFor, remoteAddr), now);
  }

  /** contract_sign (GET): the page issues the requester a new signature code; is_signed is left as it is. */
  method ContractSignPage(db: Db, requester: Id, pk: Id, newCode: string) returns (r: Response)
    requires db.Valid() && IsSignatureCode(newCode)
    modifies db`signatures, db`nextId
    ensures db.Valid()
    ensures ContractIndex(db.contracts, pk).None? || PartyIndex(db.parties, pk, requester).None? ==> r == NotFound && unchanged(db)
    ensures ContractIndex(db.contracts, pk).Some? && PartyIndex(db.parties, pk, requester).Some? ==>
              var pid := db.parties[PartyIndex(db.parties, pk, requester).value].id;
              var ss1 := WithSignatureRow(old(db.signatures), old(db.nextId), pk, pid, requester);
              var k := SignatureRowIndex(old(db.signatures), pk, pid);
              r == Done && k < |ss1| && db.signatures == ss1[k := ss1[k].(code := Some(newCode))]
    ensures forall j :: 0 <= j < |old(db.signatures)| ==> db.signatures[j].isSigned == old(db.signatures)[j].isSigned
  {
    if ContractIndex(db.contracts, pk).None? {
      return NotFound;
    }
    var pj := PartyIndex(db.parties, pk, requester);
    if pj.None? {
      return NotFound;
    }
    var pid := db.parties[pj.value].id;
    assert (pid, pk) in PartyKeys(db.parties);
    WithSignatureRowMeaning(db.signatures, db.nextId, pk, pid, requester);
    IssueSignatureCode(db, pk, pid, requester, newCode);
    return Done;
  }

  /** The approval table once contract_approve has found, or created unapproved, the requester's approval. */
  function WithApprovalRow(aps: seq<Approval>, next: nat, c: Id, u: Id, ip: Option<string>): seq<Approval>
  {
    if ApprovalIndex(aps, c, u).Some? then aps else aps + [Approval(next, c, u, false, None, ip)]
  }

  function ApprovalRowIndex(aps: seq<Approval>, c: Id, u: Id): nat
  {
    if ApprovalIndex(aps, c, u).Some? then ApprovalIndex(aps, c, u).value else |aps|
  }

  /** The approval table after contract_approve's POST path: the requester's approval is approved, once. */
  function AfterApprove(aps: seq<Approval>, next: nat, c: Id, u: Id, ip: Option<string>, now: Timestamp): seq<Approval>
  {
    var aps1 := WithApprovalRow(aps, next, c, u, ip);
    var k := ApprovalRowIndex(aps, c, u);
    if aps1[k].isApproved then aps1 else aps1[k := aps1[k].(isApproved := true, approvedAt := Some(now))]
  }

  /**
   * After contract_approve the requester has approved the contract; approving again is a no-op;
   * no other approval row changes and no approval is withdrawn.
   */
  lemma AfterApproveMeaning(aps: seq<Approval>, next: nat, c: Id, u: Id, ip: Option<string>, now: Timestamp)
    requires Pairwise(aps, ApprovalRowsCompatible)
    ensures var aps' := AfterApprove(aps, next, c, u, ip, now);
      UserHasApproved(aps', c, Some(u))
      && (UserHasApproved(aps, c, Some(u)) ==> aps' == aps)
      && |aps'| >= |aps|
      && (forall j :: 0 <= j < |aps| && aps[j] != aps'[j] ==> j == ApprovalRowIndex(aps, c, u))
      && (forall j :: 0 <= j < |aps| && aps[j].isApproved ==> aps'[j].isApproved)
  {
    var aps' := AfterApprove(aps, next, c, u, ip, now);
    var k := ApprovalRowIndex(aps, c, u);
    assert aps'[k].contract == c && aps'[k].user == u && aps'[k].isApproved;
    UserHasApprovedMeaning(aps', c, Some(u));
    if UserHasApproved(aps, c, Some(u)) {
      UserHasApprovedMeaning(aps, c, Some(u));
      var j :| 0 <= j < |aps| && aps[j].contract == c && aps[j].user == u && aps[j].isApproved;
      assert k == j;
    }
  }

  /**
   * contract_approve (POST): refused once the contract is completed; otherwise the requester's
   * approval is got or created and, unless already approved, approved and followed by the
   * completion check.
   */
  method ContractApprove(db: Db, requester: Id, pk: Id, forwardedFor: Option<string>, remoteAddr: Option<string>, now: Timestamp)
    returns (r: Response)
    requires db.Valid()
    modifies db`contracts, db`approvals, db`nextId
    ensures db.Valid()
    ensures ContractIndex(old(db.contracts), pk).None? ==> r == NotFound && unchanged(db)
    ensures ContractIndex(old(db.contracts), pk).Some? && old(db.contracts)[ContractIndex(old(db.contracts), pk).value].status == Completed ==>
              r == Refused(AlreadyCompleted) && unchanged(db)
    ensures ContractIndex(old(db.contracts), pk).Some? && old(db.contracts)[ContractIndex(old(db.contracts), pk).value].status != Completed ==>
              var i := ContractIndex(old(db.contracts), pk).value;
              var ip := GetClientIp(forwardedFor, remoteAddr);
              db.approvals == AfterApprove(old(db.approvals), old(db.nextId), pk, requester, ip, now)
              && if UserHasApproved(old(db.approvals), pk, Some(requester)) then
                   r == Done && db.contracts == old(db.contracts)
                 else
                   r == Recorded(CanBeCompleted(old(db.contracts)[i], db.signatures, db.approvals))
                   && db.contracts == (if r.completed then old(db.contracts)[i := old(db.contracts)[i].(status := Completed, completedAt := Some(now), isEditable := false)]
                                       else old(db.contracts))
  {
    var ci := ContractIndex(db.contracts, pk);
    if ci.None? {
      return NotFound;
    }
    if db.contracts[ci.value].status == Completed {
      return Refused(AlreadyCompleted);
    }
    assert pk in ContractIds(db.contracts);
    var already := RecordApproval(db, pk, requester, GetClientIp(forwardedFor, remoteAddr), now);
    if already {
      return Done;
    }
    var completed := db.MarkAsCompleted(ci.value, now);
    return Recorded(completed);
  }

  /** get_or_create of the requester's approval, then approving it unless it already is. */
  method RecordApproval(db: Db, pk: Id, requester: Id, ip: Option<string>, now: Timestamp) returns (already: bool)
    requires db.Valid() && pk in ContractIds(db.contracts)
    modifies db`approvals, db`nextId
    ensures db.Valid()
    ensures already == UserHasApproved(old(db.approvals), pk, Some(requester))
    ensures db.approvals == AfterApprove(old(db.approvals), old(db.nextId), pk, requester, ip, now)
    ensures already ==> db.approvals == old(db.approvals) && db.nextId == old(db.nextId)
  {
    UserHasApprovedMeaning(db.approvals, pk, Some(requester));
    var k, created := db.GetOrCreateApproval(pk, requester, ip);
    var a := db.approvals[k];
    if a.isApproved {
      return true;
    }
    db.UpdateApproval(k, a.(isApproved := true, approvedAt := Some(now)));
    return false;
  }

  /** The signatures verify_signature_code matches: the requester's on the contract with the posted code (None matches NULL). */
  function CodeMatches(ss: seq<Signature>, c: Id, u: Id, code: Option<string>): nat
  {
    Count(ss, (x: Signature) => x.contract == c && x.user == u && x.code == code)
  }

  function CodeMatchIndex(ss: seq<Signature>, c: Id, u: Id, code: Option<string>): (r: Option<nat>)
    ensures r.Some? <==> CodeMatches(ss, c, u, code) > 0
    ensures r.Some? ==> r.value < |ss| && ss[r.value].contract == c && ss[r.value].user == u && ss[r.value].code == code
  {
    CountZero(ss, (x: Signature) => x.contract == c && x.user == u && x.code == code);
    IndexWhere(ss, (x: Signature) => x.contract == c && x.user == u && x.code == code)
  }

  /**
   * verify_signature_code (POST): ContractSignature.objects.get(contract, user, signature_code)
   * and, if the row is not signed yet, sign it. No completion check follows, and the contract
   * row never changes. Several matching rows raise MultipleObjectsReturned, which is not caught.
   */
  method VerifySignatureCode(db: Db, requester: Id, pk: Id, code: Option<string>,
                             forwardedFor: Option<string>, remoteAddr: Option<string>, now: Timestamp)
    returns (r: Response)
    requires db.Valid()
    modifies db`signatures
    ensures db.Valid()
    ensures ContractIndex(db.contracts, pk).None? ==> r == NotFound && db.signatures == old(db.signatures)
    ensures ContractIndex(db.contracts, pk).Some? ==>
              var n := CodeMatches(old(db.signatures), pk, requester, code);
              if n == 0 then r == Refused(InvalidCode) && db.signatures == old(db.signatures)
              else if n > 1 then r == ServerError && db.signatures == old(db.signatures)
              else
                var k := CodeMatchIndex(old(db.signatures), pk, requester, code).value;
                if old(db.signatures)[k].isSigned then r == Refused(AlreadySigned) && db.signatures == old(db.signatures)
                else r == Done && db.signatures == old(db.signatures)[k := old(db.signatures)[k].(isSigned := true, signedAt := Some(now),
                                                                                                 ipAddress := GetClientIp(forwardedFor, remoteAddr))]
  {
    if ContractIndex(db.contracts, pk).None? {
      return NotFound;
    }
    var n := CodeMatches(db.signatures, pk, requester, code);
    if n == 0 {
      return Refused(InvalidCode);
    }
    if n > 1 {
      return ServerError;
    }
    var k := CodeMatchIndex(db.signatures, pk, requester, code).value;
    var sig := db.signatures[k];
    if sig.isSigned {
      return Refused(AlreadySigned);
    }
    db.UpdateSignature(k, sig.(isSigned := true, signedAt := Some(now), ipAddress := GetClientIp(forwardedFor, remoteAddr)));
    return Done;
  }

  // ---------------------------------------------------------------------------------
  // add_contract_party
  // ---------------------------------------------------------------------------------

  /**
   * add_contract_party (POST): on the requester's own contract, a registered user (by id, or else
   * by e-mail) who is not yet a party is enrolled with a signature code; anyone else becomes a
   * manual name/e-mail party with no signature row.
   */
  method AddContractParty(db: Db, requester: Id, pk: Id, name: string, email: Option<string>, role: Option<Role>, userId: IntField, code: string)
    returns (r: Response)
    requires db.Valid() && IsSignatureCode(code)
    modifies db`parties, db`signatures, db`nextId
    ensures db.Valid()
    ensures OwnedContractIndex(db.contracts, pk, requester).None? ==> r == NotFound && unchanged(db)
    ensures OwnedContractIndex(db.contracts, pk, requester).Some? ==>
              match ResolveUser(db.users, userId, email)
              case LookupFailed => r == ServerError && unchanged(db)
              case Registered(u) =>
                if PartyIndex(old(db.parties), pk, u.id).Some? then r == Refused(AlreadyParty) && unchanged(db)
                else r == Done && db.nextId == old(db.nextId) + 2
                     && db.parties == old(db.parties) + [UserParty(old(db.nextId), pk, u.id, Or(role, PartyRole))]
                     && db.signatures == old(db.signatures) + [NewSignature(old(db.nextId) + 1, pk, old(db.nextId), u.id, Some(code))]
              case NoUser =>
                r == Done && db.nextId == old(db.nextId) + 1 && db.signatures == old(db.signatures)
                && db.parties == old(db.parties) + [NewParty(old(db.nextId), pk, None, name, Or(email, ""), Or(role, PartyRole))]
  {
    var found := OwnedContractIndex(db.contracts, pk, requester);
    if found.None? {
      return NotFound;
    }
    assert pk in ContractIds(db.contracts) by {
      assert db.contracts[found.value].id == pk;
    }
    match ResolveUser(db.users, userId, email)
    case LookupFailed =>
      return ServerError;
    case Registered(u) =>
      if PartyIndex(db.parties, pk, u.id).Some? {
        return Refused(AlreadyParty);
      }
      var e := EnrolParty(db, pk, u.id, Or(role, PartyRole), code);
      return Done;
    case NoUser =>
      var ins := db.InsertParty(pk, None, name, Or(email, ""), Or(role, PartyRole));
      return Done;
  }
}
