/**
 * The ORM tables as an object: one sequence of rows per table, in primary-key order, and
 * the primitive row operations the views perform (create, save, delete with cascade), each
 * keeping the database's own guarantees: fresh increasing primary keys, foreign keys that
 * resolve, and the unique_together constraints, whose violation is an IntegrityError.
 * Contract.mark_as_completed lives here because it saves a contract row.
 */
module Database {
  import opened Models

  /** The outcome of creating a row: its new primary key, or the database refusing a duplicate key. */
  datatype Insertion = Inserted(id: Id) | IntegrityError

  function ContractIds(cs: seq<Contract>): set<Id>
  {
    set i | 0 <= i < |cs| :: cs[i].id
  }

  /** The (id, contract) pairs of the parties: a signature's party must belong to the signature's contract. */
  function PartyKeys(ps: seq<Party>): set<(Id, Id)>
  {
    set i | 0 <= i < |ps| :: (ps[i].id, ps[i].contract)
  }

  ghost predicate ContractsValid(cs: seq<Contract>, next: nat)
  {
    (forall i :: 0 <= i < |cs| ==> cs[i].id < next) && Pairwise(cs, ContractRowsOrdered)
  }

  ghost predicate PartiesValid(ps: seq<Party>, cs: seq<Contract>, next: nat)
  {
    (forall i :: 0 <= i < |ps| ==> ps[i].id < next && ps[i].contract in ContractIds(cs))
    && Pairwise(ps, PartyRowsCompatible)
  }

  ghost predicate SignaturesValid(ss: seq<Signature>, ps: seq<Party>, next: nat)
  {
    (forall i :: 0 <= i < |ss| ==>
       ss[i].id < next && (ss[i].party, ss[i].contract) in PartyKeys(ps) && CodeValid(ss[i].code))
    && Pairwise(ss, SignatureRowsCompatible)
  }

  ghost predicate ApprovalsValid(aps: seq<Approval>, cs: seq<Contract>, next: nat)
  {
    (forall i :: 0 <= i < |aps| ==> aps[i].id < next && aps[i].contract in ContractIds(cs))
    && Pairwise(aps, ApprovalRowsCompatible)
  }

  ghost predicate TablesValid(cs: seq<Contract>, ps: seq<Party>, ss: seq<Signature>, aps: seq<Approval>, next: nat)
  {
    ContractsValid(cs, next) && PartiesValid(ps, cs, next) && SignaturesValid(ss, ps, next)
    && ApprovalsValid(aps, cs, next)
  }

  /** With the constraints in force, each unique_together key occurs at most once. */
  lemma UniqueKeys(cs: seq<Contract>, ps: seq<Party>, ss: seq<Signature>, aps: seq<Approval>, next: nat, c: Id, u: Id, pid: Id)
    requires TablesValid(cs, ps, ss, aps, next)
    ensures PartiesOfUser(ps, c, u) <= 1
    ensures SignaturesOfParty(ss, c, pid) <= 1
    ensures ApprovalsOfUser(aps, c, u) <= 1
  {
    AtMostOnePartyPerUser(ps, c, u);
    AtMostOneSignaturePerParty(ss, c, pid);
    AtMostOneApprovalPerUser(aps, c, u);
  }

  /** Every key a row refers to is below the next primary key, so a fresh key is referred to by no row. */
  lemma KeysBelowNext(cs: seq<Contract>, ps: seq<Party>, ss: seq<Signature>, aps: seq<Approval>, next: nat)
    requires TablesValid(cs, ps, ss, aps, next)
    ensures forall i :: 0 <= i < |ps| ==> ps[i].contract < next
    ensures forall i :: 0 <= i < |ss| ==> ss[i].party < next && ss[i].contract < next
    ensures forall i :: 0 <= i < |aps| ==> aps[i].contract < next
  {
    forall i | 0 <= i < |ps| ensures ps[i].contract < next {
      var k :| 0 <= k < |cs| && cs[k].id == ps[i].contract;
    }
    forall i | 0 <= i < |ss| ensures ss[i].party < next && ss[i].contract < next {
      var k :| 0 <= k < |ps| && (ps[k].id, ps[k].contract) == (ss[i].party, ss[i].contract);
      var m :| 0 <= m < |cs| && cs[m].id == ps[k].contract;
    }
    forall i | 0 <= i < |aps| ensures aps[i].contract < next {
      var k :| 0 <= k < |cs| && cs[k].id == aps[i].contract;
    }
  }

  /** The rows contract.delete() leaves behind in each table, the cascade included. */
  function ContractsWithout(cs: seq<Contract>, c: Id): seq<Contract>
  {
    Filter(cs, (x: Contract) => x.id != c)
  }

  function PartiesWithout(ps: seq<Party>, c: Id): seq<Party>
  {
    Filter(ps, (x: Party) => x.contract != c)
  }

  function SignaturesWithout(ss: seq<Signature>, c: Id): seq<Signature>
  {
    Filter(ss, (x: Signature) => x.contract != c)
  }

  function ApprovalsWithout(aps: seq<Approval>, c: Id): seq<Approval>
  {
    Filter(aps, (x: Approval) => x.contract != c)
  }

  /** The rows party.delete() leaves behind: the party and its signatures go. */
  function PartiesOtherThan(ps: seq<Party>, pid: Id): seq<Party>
  {
    Filter(ps, (x: Party) => x.id != pid)
  }

  function SignaturesNotOf(ss: seq<Signature>, pid: Id): seq<Signature>
  {
    Filter(ss, (x: Signature) => x.party != pid)
  }

  lemma ContractsWithoutValid(cs: seq<Contract>, next: nat, c: Id)
    requires ContractsValid(cs, next)
    ensures ContractsValid(ContractsWithout(cs, c), next)
    ensures forall y :: y in ContractIds(cs) && y != c ==> y in ContractIds(ContractsWithout(cs, c))
  {
    var keep := (x: Contract) => x.id != c;
    var cs' := Filter(cs, keep);
    FilterPairwise(cs, keep, ContractRowsOrdered);
    forall i | 0 <= i < |cs'| ensures cs'[i].id < next {
      assert cs'[i] in cs;
    }
    forall y | y in ContractIds(cs) && y != c ensures y in ContractIds(cs') {
      var k :| 0 <= k < |cs| && cs[k].id == y;
      assert cs[k] in cs';
      var k' :| 0 <= k' < |cs'| && cs'[k'] == cs[k];
    }
  }

  lemma PartiesWithoutValid(ps: seq<Party>, cs: seq<Contract>, next: nat, c: Id)
    requires PartiesValid(ps, cs, next)
    requires forall y :: y in ContractIds(cs) && y != c ==> y in ContractIds(ContractsWithout(cs, c))
    ensures PartiesValid(PartiesWithout(ps, c), ContractsWithout(cs, c), next)
    ensures forall key :: key in PartyKeys(ps) && key.1 != c ==> key in PartyKeys(PartiesWithout(ps, c))
  {
    var keep := (x: Party) => x.contract != c;
    var ps' := Filter(ps, keep);
    FilterPairwise(ps, keep, PartyRowsCompatible);
    forall i | 0 <= i < |ps'| ensures ps'[i].id < next && ps'[i].contract in ContractIds(ContractsWithout(cs, c)) {
      assert ps'[i] in ps;
    }
    forall key | key in PartyKeys(ps) && key.1 != c ensures key in PartyKeys(ps') {
      var k :| 0 <= k < |ps| && (ps[k].id, ps[k].contract) == key;
      assert ps[k] in ps';
      var k' :| 0 <= k' < |ps'| && ps'[k'] == ps[k];
    }
  }

  lemma SignaturesFilteredValid(ss: seq<Signature>, ps: seq<Party>, ps': seq<Party>, next: nat, keep: Signature -> bool)
    requires SignaturesValid(ss, ps, next)
    requires forall x :: keep(x) && (x.party, x.contract) in PartyKeys(ps) ==> (x.party, x.contract) in PartyKeys(ps')
    ensures SignaturesValid(Filter(ss, keep), ps', next)
  {
    var ss' := Filter(ss, keep);
    FilterPairwise(ss, keep, SignatureRowsCompatible);
    forall i | 0 <= i < |ss'|
      ensures ss'[i].id < next && (ss'[i].party, ss'[i].contract) in PartyKeys(ps') && CodeValid(ss'[i].code)
    {
      assert ss'[i] in ss;
    }
  }

  lemma ApprovalsWithoutValid(aps: seq<Approval>, cs: seq<Contract>, next: nat, c: Id)
    requires ApprovalsValid(aps, cs, next)
    requires forall y :: y in ContractIds(cs) && y != c ==> y in ContractIds(ContractsWithout(cs, c))
    ensures ApprovalsValid(ApprovalsWithout(aps, c), ContractsWithout(cs, c), next)
  {
    var keep := (x: Approval) => x.contract != c;
    var aps' := Filter(aps, keep);
    FilterPairwise(aps, keep, ApprovalRowsCompatible);
    forall i | 0 <= i < |aps'| ensures aps'[i].id < next && aps'[i].contract in ContractIds(ContractsWithout(cs, c)) {
      assert aps'[i] in aps;
    }
  }

  /** Deleting a contract cascades to its parties, their signatures and the contract's approvals. */
  lemma CascadeKeepsValid(cs: seq<Contract>, ps: seq<Party>, ss: seq<Signature>, aps: seq<Approval>, next: nat, c: Id)
    requires TablesValid(cs, ps, ss, aps, next)
    ensures TablesValid(ContractsWithout(cs, c), PartiesWithout(ps, c), SignaturesWithout(ss, c), ApprovalsWithout(aps, c), next)
  {
    ContractsWithoutValid(cs, next, c);
    PartiesWithoutValid(ps, cs, next, c);
    SignaturesFilteredValid(ss, ps, PartiesWithout(ps, c), next, (x: Signature) => x.contract != c);
    ApprovalsWithoutValid(aps, cs, next, c);
  }

  /** Deleting a party cascades to its signatures. */
  lemma PartyCascadeKeepsValid(cs: seq<Contract>, ps: seq<Party>, ss: seq<Signature>, aps: seq<Approval>, next: nat, pid: Id)
    requires TablesValid(cs, ps, ss, aps, next)
    ensures TablesValid(cs, PartiesOtherThan(ps, pid), SignaturesNotOf(ss, pid), aps, next)
  {
    var ps' := PartiesOtherThan(ps, pid);
    FilterPairwise(ps, (x: Party) => x.id != pid, PartyRowsCompatible);
    forall i | 0 <= i < |ps'| ensures ps'[i].id < next && ps'[i].contract in ContractIds(cs) {
      assert ps'[i] in ps;
    }
    forall key | key in PartyKeys(ps) && key.0 != pid ensures key in PartyKeys(ps') {
      var k :| 0 <= k < |ps| && (ps[k].id, ps[k].contract) == key;
      assert ps[k] in ps';
      var k' :| 0 <= k' < |ps'| && ps'[k'] == ps[k];
    }
    SignaturesFilteredValid(ss, ps, ps', next, (x: Signature) => x.party != pid);
  }

  class Db {
    /** The auth user table and the template table: read, never written, by the core. */
    var users: seq<User>
    var templates: seq<Id>

    var contracts: seq<Contract>
    var parties: seq<Party>
    var signatures: seq<Signature>
    var approvals: seq<Approval>

    /** The next primary key; every key in use is below it. */
    var nextId: nat

    ghost predicate Valid()
      reads this
    {
      TablesValid(contracts, parties, signatures, approvals, nextId)
    }

    constructor (users: seq<User>, templates: seq<Id>)
      ensures Valid()
      ensures this.users == users && this.templates == templates
      ensures contracts == [] && parties == [] && signatures == [] && approvals == [] && nextId == 0
    {
      this.users := users;
      this.templates := templates;
      contracts, parties, signatures, approvals := [], [], [], [];
      nextId := 0;
    }

    /** Contract.objects.create: the row gets the next primary key. */
    method InsertContract(row: Contract) returns (id: Id)
      requires Valid()
      modifies this`contracts, this`nextId
      ensures Valid()
      ensures id == old(nextId) && nextId == id + 1
      ensures contracts == old(contracts) + [row.(id := id)]
    {
      id := nextId;
      var x := row.(id := id);
      PairwiseAppend(contracts, x, ContractRowsOrdered);
      assert ContractIds(contracts + [x]) >= ContractIds(contracts) by {
        forall y | y in ContractIds(contracts) ensures y in ContractIds(contracts + [x]) {
          var k :| 0 <= k < |contracts| && contracts[k].id == y;
          assert (contracts + [x])[k] == contracts[k];
        }
      }
      contracts := contracts + [x];
      nextId := nextId + 1;
    }

    /** ContractParty.objects.create; refused when the user already has a party on the contract. */
    method InsertParty(c: Id, user: Option<Id>, name: string, email: string, role: Role) returns (r: Insertion)
      requires Valid() && c in ContractIds(contracts)
      modifies this`parties, this`nextId
      ensures Valid()
      ensures r.IntegrityError? <==> user.Some? && PartyIndex(old(parties), c, user.value).Some?
      ensures r.IntegrityError? ==> parties == old(parties) && nextId == old(nextId)
      ensures r.Inserted? ==> (r.id == old(nextId) && nextId == r.id + 1
                               && parties == old(parties) + [NewParty(r.id, c, user, name, email, role)])
    {
      if user.Some? && PartyIndex(parties, c, user.value).Some? {
        return IntegrityError;
      }
      var x := NewParty(nextId, c, user, name, email, role);
      PairwiseAppend(parties, x, PartyRowsCompatible);
      assert PartyKeys(parties + [x]) >= PartyKeys(parties) by {
        forall y | y in PartyKeys(parties) ensures y in PartyKeys(parties + [x]) {
          var k :| 0 <= k < |parties| && (parties[k].id, parties[k].contract) == y;
          assert (parties + [x])[k] == parties[k];
        }
      }
      r := Inserted(nextId);
      parties := parties + [x];
      nextId := nextId + 1;
    }

    /** ContractSignature.objects.create; refused when the party already has a signature on the contract. */
    method InsertSignature(c: Id, pid: Id, u: Id, code: Option<string>) returns (r: Insertion)
      requires Valid() && (pid, c) in PartyKeys(parties) && CodeValid(code)
      modifies this`signatures, this`nextId
      ensures Valid()
      ensures r.IntegrityError? <==> SignatureIndex(old(signatures), c, pid).Some?
      ensures r.IntegrityError? ==> signatures == old(signatures) && nextId == old(nextId)
      ensures r.Inserted? ==> (r.id == old(nextId) && nextId == r.id + 1
                               && signatures == old(signatures) + [NewSignature(r.id, c, pid, u, code)])
    {
      if SignatureIndex(signatures, c, pid).Some? {
        return IntegrityError;
      }
      var x := NewSignature(nextId, c, pid, u, code);
      PairwiseAppend(signatures, x, SignatureRowsCompatible);
      r := Inserted(nextId);
      signatures := signatures + [x];
      nextId := nextId + 1;
    }

    /** ContractApproval.objects.get_or_create(contract=c, user=u, defaults={'ip_address': ip}). */
    method GetOrCreateApproval(c: Id, u: Id, ip: Option<string>) returns (k: nat, created: bool)
      requires Valid() && c in ContractIds(contracts)
      modifies this`approvals, this`nextId
      ensures Valid()
      ensures created <==> ApprovalIndex(old(approvals), c, u).None?
      ensures !created ==> approvals == old(approvals) && nextId == old(nextId) && k == ApprovalIndex(old(approvals), c, u).value
      ensures created ==> (approvals == old(approvals) + [Approval(old(nextId), c, u, false, None, ip)]
                           && nextId == old(nextId) + 1 && k == |old(approvals)|)
      ensures k < |approvals| && approvals[k].contract == c && approvals[k].user == u
    {
      var found := ApprovalIndex(approvals, c, u);
      if found.Some? {
        return found.value, false;
      }
      var x := Approval(nextId, c, u, false, None, ip);
      PairwiseAppend(approvals, x, ApprovalRowsCompatible);
      k, created := |approvals|, true;
      approvals := approvals + [x];
      nextId := nextId + 1;
    }

    /** contract.save() of a row whose primary key is unchanged. */
    method UpdateContract(i: nat, row: Contract)
      requires Valid() && i < |contracts| && row.id == contracts[i].id
      modifies this`contracts
      ensures Valid()
      ensures contracts == old(contracts)[i := row]
    {
      assert ContractIds(contracts[i := row]) == ContractIds(contracts) by {
        forall y | y in ContractIds(contracts) ensures y in ContractIds(contracts[i := row]) {
          var k :| 0 <= k < |contracts| && contracts[k].id == y;
          assert contracts[i := row][k].id == y;
        }
      }
      contracts := contracts[i := row];
    }

    /** party.save() of a row whose keys (id, contract, user) are unchanged. */
    method UpdateParty(i: nat, row: Party)
      requires Valid() && i < |parties|
      requires row.id == parties[i].id && row.contract == parties[i].contract && row.user == parties[i].user
      modifies this`parties
      ensures Valid()
      ensures parties == old(parties)[i := row]
    {
      assert PartyKeys(parties[i := row]) == PartyKeys(parties) by {
        forall y | y in PartyKeys(parties) ensures y in PartyKeys(parties[i := row]) {
          var k :| 0 <= k < |parties| && (parties[k].id, parties[k].contract) == y;
          assert (parties[i := row][k].id, parties[i := row][k].contract) == y;
        }
      }
      parties := parties[i := row];
    }

    /** signature.save() of a row whose keys (id, contract, party) are unchanged. */
    method UpdateSignature(i: nat, row: Signature)
      requires Valid() && i < |signatures| && CodeValid(row.code)
      requires row.id == signatures[i].id && row.contract == signatures[i].contract && row.party == signatures[i].party
      modifies this`signatures
      ensures Valid()
      ensures signatures == old(signatures)[i := row]
    {
      signatures := signatures[i := row];
    }

    /** approval.save() of a row whose keys (id, contract, user) are unchanged. */
    method UpdateApproval(i: nat, row: Approval)
      requires Valid() && i < |approvals|
      requires row.id == approvals[i].id && row.contract == approvals[i].contract && row.user == approvals[i].user
      modifies this`approvals
      ensures Valid()
      ensures approvals == old(approvals)[i := row]
    {
      approvals := approvals[i := row];
    }

    /** Contract.mark_as_completed on the contract stored at index i: a guarded one-shot transition. */
    method MarkAsCompleted(i: nat, now: Timestamp) returns (done: bool)
      requires Valid() && i < |contracts|
      modifies this`contracts
      ensures Valid()
      ensures done == CanBeCompleted(old(contracts[i]), signatures, approvals)
      ensures done ==> contracts == old(contracts)[i := old(contracts[i]).(status := Completed, completedAt := Some(now), isEditable := false)]
      ensures !done ==> contracts == old(contracts)
    {
      var k := contracts[i];
      if CanBeCompleted(k, signatures, approvals) {
        UpdateContract(i, k.(status := Completed, completedAt := Some(now), isEditable := false));
        return true;
      }
      return false;
    }

    /** The four tables replaced at once by consistent new contents. */
    method ReplaceTables(cs: seq<Contract>, ps: seq<Party>, ss: seq<Signature>, aps: seq<Approval>)
      requires TablesValid(cs, ps, ss, aps, nextId)
      modifies this`contracts, this`parties, this`signatures, this`approvals
      ensures Valid()
      ensures contracts == cs && parties == ps && signatures == ss && approvals == aps
    {
      contracts, parties, signatures, approvals := cs, ps, ss, aps;
    }

    /** contract.delete(): the contract and, by cascade, its parties, their signatures and its approvals. */
    method DeleteContract(c: Id)
      requires Valid()
      modifies this`contracts, this`parties, this`signatures, this`approvals
      ensures Valid()
      ensures contracts == ContractsWithout(old(contracts), c)
      ensures parties == PartiesWithout(old(parties), c)
      ensures signatures == SignaturesWithout(old(signatures), c)
      ensures approvals == ApprovalsWithout(old(approvals), c)
    {
      CascadeKeepsValid(contracts, parties, signatures, approvals, nextId, c);
      ReplaceTables(ContractsWithout(contracts, c), PartiesWithout(parties, c), SignaturesWithout(signatures, c), ApprovalsWithout(approvals, c));
    }

    /** party.delete(): the party and, by cascade, its signatures. */
    method DeleteParty(pid: Id)
      requires Valid()
      modifies this`parties, this`signatures
      ensures Valid()
      ensures parties == PartiesOtherThan(old(parties), pid)
      ensures signatures == SignaturesNotOf(old(signatures), pid)
    {
      PartyCascadeKeepsValid(contracts, parties, signatures, approvals, nextId, pid);
      parties, signatures := PartiesOtherThan(parties, pid), SignaturesNotOf(signatures, pid);
    }
  }
}
