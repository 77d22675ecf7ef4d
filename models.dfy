/**
 * The rows of the contract tables (contracts/models.py), the counts and predicates the
 * Contract model derives from them, the unique constraints, UserProfile.age, and the
 * sequence facts (counting, searching, filtering) that the ORM queries rest on.
 *
 * A table is a sequence of rows in primary-key order; a queryset `filter(...)` is a
 * predicate over rows, `.count()` is Count and `.first()`/`.get()` is IndexWhere.
 */
module Models {

  datatype Option<T> = None | Some(value: T)

  /** Primary and foreign keys. The contract's UUID is modelled as a fresh key like the others. */
  type Id = nat

  /** An instant, supplied by the caller in place of timezone.now(). */
  type Timestamp = int

  datatype Date = Date(year: int, month: int, day: int)

  /** STATUS_CHOICES, plus Archived, which the recreate view assigns although the choices omit it. */
  datatype Status = Draft | PendingSignatures | Signed | Approved | Completed | Cancelled | Archived

  datatype Visibility = Private | Public

  datatype Role = PartyRole | WitnessRole | ApproverRole

  datatype InvitationStatus = Pending | Accepted | Declined

  datatype User = User(id: Id, username: string, fullName: string, email: string)

  datatype Contract = Contract(
    id: Id,
    creator: Id,
    title: string,
    content: string,
    template: Option<Id>,
    status: Status,
    visibility: Visibility,
    isSelfContract: bool,
    isEditable: bool,
    systemApproved: bool,
    startDate: Date,
    durationMonths: Option<int>,
    isIndefinite: bool,
    createdAt: Timestamp,
    completedAt: Option<Timestamp>)

  /** A party is a registered user (user != None) or a person entered by name and e-mail. */
  datatype Party = Party(
    id: Id,
    contract: Id,
    user: Option<Id>,
    name: string,
    email: string,
    role: Role,
    invitationStatus: InvitationStatus,
    declineReason: string,
    declinedAt: Option<Timestamp>)

  datatype Signature = Signature(
    id: Id,
    contract: Id,
    party: Id,
    user: Id,
    isSigned: bool,
    code: Option<string>,
    signedAt: Option<Timestamp>,
    ipAddress: Option<string>)

  datatype Approval = Approval(
    id: Id,
    contract: Id,
    user: Id,
    isApproved: bool,
    approvedAt: Option<Timestamp>,
    ipAddress: Option<string>)

  /** A party row as ContractParty.objects.create leaves it: invitation_status defaults to pending. */
  function NewParty(id: Id, contract: Id, user: Option<Id>, name: string, email: string, role: Role): Party
  {
    Party(id, contract, user, name, email, role, Pending, "", None)
  }

  /** A signature row as ContractSignature.objects.create leaves it: not signed. */
  function NewSignature(id: Id, contract: Id, party: Id, user: Id, code: Option<string>): Signature
  {
    Signature(id, contract, party, user, false, code, None, None)
  }

  /** The shape of generate_signature_code's result: six decimal digits. */
  predicate IsSignatureCode(s: string)
  {
    |s| == 6 && forall i :: 0 <= i < 6 ==> '0' <= s[i] <= '9'
  }

  /** signature_code is nullable; a stored code has the generator's shape. */
  predicate CodeValid(code: Option<string>)
  {
    code.None? || IsSignatureCode(code.value)
  }

  // ---------------------------------------------------------------------------------
  // Counting, searching and filtering sequences
  // ---------------------------------------------------------------------------------

  /** The number of elements of s that satisfy p. */
  function Count<T>(s: seq<T>, p: T -> bool): (n: nat)
    ensures n <= |s|
  {
    if |s| == 0 then 0 else Count(s[..|s| - 1], p) + (if p(s[|s| - 1]) then 1 else 0)
  }

  lemma {:induction false} CountMono<T>(s: seq<T>, p: T -> bool, q: T -> bool)
    requires forall i :: 0 <= i < |s| && p(s[i]) ==> q(s[i])
    ensures Count(s, p) <= Count(s, q)
  {
    if |s| > 0 {
      CountMono(s[..|s| - 1], p, q);
    }
  }

  lemma {:induction false} CountZero<T>(s: seq<T>, p: T -> bool)
    ensures Count(s, p) == 0 <==> forall i :: 0 <= i < |s| ==> !p(s[i])
  {
    if |s| > 0 {
      CountZero(s[..|s| - 1], p);
      assert forall i :: 0 <= i < |s| - 1 ==> s[..|s| - 1][i] == s[i];
    }
  }

  lemma CountAppend<T>(s: seq<T>, x: T, p: T -> bool)
    ensures Count(s + [x], p) == Count(s, p) + (if p(x) then 1 else 0)
  {
    assert (s + [x])[..|s|] == s;
  }

  /** Count of a prefix one element longer: the step of a loop that walks a table. */
  lemma CountPrefixStep<T>(s: seq<T>, i: nat, p: T -> bool)
    requires i < |s|
    ensures Count(s[..i + 1], p) == Count(s[..i], p) + (if p(s[i]) then 1 else 0)
  {
    assert s[..i + 1][..i] == s[..i];
  }

  lemma {:induction false} CountUpdate<T>(s: seq<T>, i: nat, x: T, p: T -> bool)
    requires i < |s|
    ensures Count(s[i := x], p) == Count(s, p) - (if p(s[i]) then 1 else 0) + (if p(x) then 1 else 0)
  {
    var n := |s| - 1;
    if i == n {
      assert s[i := x][..n] == s[..n];
    } else {
      assert s[i := x][..n] == s[..n][i := x];
      CountUpdate(s[..n], i, x, p);
    }
  }

  /** Count(p) splits into the elements that also satisfy q and those that do not. */
  lemma {:induction false} CountSplit<T>(s: seq<T>, p: T -> bool, q: T -> bool)
    ensures Count(s, x => p(x) && q(x)) + Count(s, x => p(x) && !q(x)) == Count(s, p)
  {
    if |s| > 0 {
      CountSplit(s[..|s| - 1], p, q);
    }
  }

  /** The first index of s whose element satisfies p. */
  function IndexWhere<T>(s: seq<T>, p: T -> bool): (r: Option<nat>)
    ensures r.Some? ==> r.value < |s| && p(s[r.value]) && forall k :: 0 <= k < r.value ==> !p(s[k])
    ensures r.None? ==> forall k :: 0 <= k < |s| ==> !p(s[k])
  {
    if |s| == 0 then None
    else if p(s[0]) then Some(0)
    else match IndexWhere(s[1..], p)
      case None => None
      case Some(k) => Some(k + 1)
  }

  /** The elements of s that satisfy keep, in order. */
  function Filter<T>(s: seq<T>, keep: T -> bool): (r: seq<T>)
    ensures |r| == Count(s, keep)
    ensures forall x :: x in r ==> x in s && keep(x)
    ensures forall i :: 0 <= i < |s| && keep(s[i]) ==> s[i] in r
  {
    if |s| == 0 then []
    else
      var r0 := Filter(s[..|s| - 1], keep);
      assert forall i :: 0 <= i < |s| - 1 ==> s[i] == s[..|s| - 1][i];
      r0 + (if keep(s[|s| - 1]) then [s[|s| - 1]] else [])
  }

  /** Every earlier element of s stands in rel to every later one. */
  ghost predicate Pairwise<T>(s: seq<T>, rel: (T, T) -> bool)
  {
    forall i, j :: 0 <= i < j < |s| ==> rel(s[i], s[j])
  }

  lemma {:induction false} FilterPairwise<T>(s: seq<T>, keep: T -> bool, rel: (T, T) -> bool)
    requires Pairwise(s, rel)
    ensures Pairwise(Filter(s, keep), rel)
  {
    if |s| > 0 {
      var n := |s| - 1;
      var pre := s[..n];
      assert Pairwise(pre, rel) by {
        forall i, j | 0 <= i < j < |pre| ensures rel(pre[i], pre[j]) {
          assert pre[i] == s[i] && pre[j] == s[j];
        }
      }
      FilterPairwise(pre, keep, rel);
      var f := Filter(pre, keep);
      forall i | 0 <= i < |f| ensures rel(f[i], s[n]) {
        assert f[i] in pre;
        var k :| 0 <= k < n && pre[k] == f[i];
        assert s[k] == f[i];
      }
    }
  }

  lemma PairwiseAppend<T>(s: seq<T>, x: T, rel: (T, T) -> bool)
    requires Pairwise(s, rel)
    requires forall i :: 0 <= i < |s| ==> rel(s[i], x)
    ensures Pairwise(s + [x], rel)
  {
  }

  // ---------------------------------------------------------------------------------
  // The unique constraints (unique_together) and the primary-key order
  // ---------------------------------------------------------------------------------

  predicate ContractRowsOrdered(a: Contract, b: Contract)
  {
    a.id < b.id
  }

  /** unique_together = ['contract', 'user'] on parties. Rows without a user never clash:
      the database does not compare NULL keys as equal. */
  predicate PartyRowsCompatible(a: Party, b: Party)
  {
    a.id < b.id && !(a.contract == b.contract && a.user.Some? && a.user == b.user)
  }

  /** unique_together = ['contract', 'party'] on signatures. */
  predicate SignatureRowsCompatible(a: Signature, b: Signature)
  {
    a.id < b.id && !(a.contract == b.contract && a.party == b.party)
  }

  /** unique_together = ['contract', 'user'] on approvals. */
  predicate ApprovalRowsCompatible(a: Approval, b: Approval)
  {
    a.id < b.id && !(a.contract == b.contract && a.user == b.user)
  }

  function PartiesOfUser(ps: seq<Party>, c: Id, u: Id): nat
  {
    Count(ps, (x: Party) => x.contract == c && x.user == Some(u))
  }

  function SignaturesOfParty(ss: seq<Signature>, c: Id, pid: Id): nat
  {
    Count(ss, (x: Signature) => x.contract == c && x.party == pid)
  }

  function ApprovalsOfUser(aps: seq<Approval>, c: Id, u: Id): nat
  {
    Count(aps, (x: Approval) => x.contract == c && x.user == u)
  }

  lemma {:induction false} AtMostOnePartyPerUser(ps: seq<Party>, c: Id, u: Id)
    requires Pairwise(ps, PartyRowsCompatible)
    ensures PartiesOfUser(ps, c, u) <= 1
  {
    if |ps| > 0 {
      var n := |ps| - 1;
      var pre := ps[..n];
      assert Pairwise(pre, PartyRowsCompatible) by {
        forall i, j | 0 <= i < j < |pre| ensures PartyRowsCompatible(pre[i], pre[j]) {
          assert pre[i] == ps[i] && pre[j] == ps[j];
        }
      }
      AtMostOnePartyPerUser(pre, c, u);
      if ps[n].contract == c && ps[n].user == Some(u) {
        CountZero(pre, (x: Party) => x.contract == c && x.user == Some(u));
        assert forall i :: 0 <= i < n ==> pre[i] == ps[i];
      }
    }
  }

  lemma {:induction false} AtMostOneSignaturePerParty(ss: seq<Signature>, c: Id, pid: Id)
    requires Pairwise(ss, SignatureRowsCompatible)
    ensures SignaturesOfParty(ss, c, pid) <= 1
  {
    if |ss| > 0 {
      var n := |ss| - 1;
      var pre := ss[..n];
      assert Pairwise(pre, SignatureRowsCompatible) by {
        forall i, j | 0 <= i < j < |pre| ensures SignatureRowsCompatible(pre[i], pre[j]) {
          assert pre[i] == ss[i] && pre[j] == ss[j];
        }
      }
      AtMostOneSignaturePerParty(pre, c, pid);
      if ss[n].contract == c && ss[n].party == pid {
        CountZero(pre, (x: Signature) => x.contract == c && x.party == pid);
        assert forall i :: 0 <= i < n ==> pre[i] == ss[i];
      }
    }
  }

  lemma {:induction false} AtMostOneApprovalPerUser(aps: seq<Approval>, c: Id, u: Id)
    requires Pairwise(aps, ApprovalRowsCompatible)
    ensures ApprovalsOfUser(aps, c, u) <= 1
  {
    if |aps| > 0 {
      var n := |aps| - 1;
      var pre := aps[..n];
      assert Pairwise(pre, ApprovalRowsCompatible) by {
        forall i, j | 0 <= i < j < |pre| ensures ApprovalRowsCompatible(pre[i], pre[j]) {
          assert pre[i] == aps[i] && pre[j] == aps[j];
        }
      }
      AtMostOneApprovalPerUser(pre, c, u);
      if aps[n].contract == c && aps[n].user == u {
        CountZero(pre, (x: Approval) => x.contract == c && x.user == u);
        assert forall i :: 0 <= i < n ==> pre[i] == aps[i];
      }
    }
  }

  // ---------------------------------------------------------------------------------
  // Lookups by key
  // ---------------------------------------------------------------------------------

  function ContractIndex(cs: seq<Contract>, id: Id): (r: Option<nat>)
    ensures r.Some? ==> r.value < |cs| && cs[r.value].id == id
    ensures r.None? ==> forall k :: 0 <= k < |cs| ==> cs[k].id != id
  {
    IndexWhere(cs, (x: Contract) => x.id == id)
  }

  /** get_object_or_404(Contract, pk=id, creator=user). */
  function OwnedContractIndex(cs: seq<Contract>, id: Id, creator: Id): (r: Option<nat>)
    ensures r.Some? ==> r.value < |cs| && cs[r.value].id == id && cs[r.value].creator == creator
    ensures r.None? ==> forall k :: 0 <= k < |cs| ==> !(cs[k].id == id && cs[k].creator == creator)
  {
    IndexWhere(cs, (x: Contract) => x.id == id && x.creator == creator)
  }

  /** ContractParty.objects.get(contract=c, user=u). */
  function PartyIndex(ps: seq<Party>, c: Id, u: Id): (r: Option<nat>)
    ensures r.Some? ==> r.value < |ps| && ps[r.value].contract == c && ps[r.value].user == Some(u)
    ensures r.None? ==> forall k :: 0 <= k < |ps| ==> !(ps[k].contract == c && ps[k].user == Some(u))
  {
    IndexWhere(ps, (x: Party) => x.contract == c && x.user == Some(u))
  }

  /** get_object_or_404(ContractParty, id=pid, contract=c). */
  function PartyIdIndex(ps: seq<Party>, pid: Id, c: Id): (r: Option<nat>)
    ensures r.Some? ==> r.value < |ps| && ps[r.value].id == pid && ps[r.value].contract == c
    ensures r.None? ==> forall k :: 0 <= k < |ps| ==> !(ps[k].id == pid && ps[k].contract == c)
  {
    IndexWhere(ps, (x: Party) => x.id == pid && x.contract == c)
  }

  /** ContractSignature.objects.get(contract=c, party=pid). */
  function SignatureIndex(ss: seq<Signature>, c: Id, pid: Id): (r: Option<nat>)
    ensures r.Some? ==> r.value < |ss| && ss[r.value].contract == c && ss[r.value].party == pid
    ensures r.None? ==> forall k :: 0 <= k < |ss| ==> !(ss[k].contract == c && ss[k].party == pid)
  {
    IndexWhere(ss, (x: Signature) => x.contract == c && x.party == pid)
  }

  function ApprovalIndex(aps: seq<Approval>, c: Id, u: Id): (r: Option<nat>)
    ensures r.Some? ==> r.value < |aps| && aps[r.value].contract == c && aps[r.value].user == u
    ensures r.None? ==> forall k :: 0 <= k < |aps| ==> !(aps[k].contract == c && aps[k].user == u)
  {
    IndexWhere(aps, (x: Approval) => x.contract == c && x.user == u)
  }

  function UserIndex(us: seq<User>, u: Id): (r: Option<nat>)
    ensures r.Some? ==> r.value < |us| && us[r.value].id == u
    ensures r.None? ==> forall k :: 0 <= k < |us| ==> us[k].id != u
  {
    IndexWhere(us, (x: User) => x.id == u)
  }

  // ---------------------------------------------------------------------------------
  // Contract.total_parties, signed_parties, approved_parties, can_be_completed,
  // user_has_approved
  // ---------------------------------------------------------------------------------

  function TotalParties(ps: seq<Party>, c: Id): nat
  {
    Count(ps, (x: Party) => x.contract == c)
  }

  function SignatureRows(ss: seq<Signature>, c: Id): nat
  {
    Count(ss, (x: Signature) => x.contract == c)
  }

  function SignedParties(ss: seq<Signature>, c: Id): nat
  {
    Count(ss, (x: Signature) => x.contract == c && x.isSigned)
  }

  function ApprovalRows(aps: seq<Approval>, c: Id): nat
  {
    Count(aps, (x: Approval) => x.contract == c)
  }

  function ApprovedParties(aps: seq<Approval>, c: Id): nat
  {
    Count(aps, (x: Approval) => x.contract == c && x.isApproved)
  }

  /** signed_parties counts only the contract's signatures that are signed. */
  lemma SignedPartiesAtMostRows(ss: seq<Signature>, c: Id)
    ensures SignedParties(ss, c) <= SignatureRows(ss, c)
    ensures SignedParties(ss, c) == 0 <==> forall i :: 0 <= i < |ss| && ss[i].contract == c ==> !ss[i].isSigned
  {
    CountMono(ss, (x: Signature) => x.contract == c && x.isSigned, (x: Signature) => x.contract == c);
    CountZero(ss, (x: Signature) => x.contract == c && x.isSigned);
  }

  /** approved_parties counts only the contract's approvals that are approved. */
  lemma ApprovedPartiesAtMostRows(aps: seq<Approval>, c: Id)
    ensures ApprovedParties(aps, c) <= ApprovalRows(aps, c)
    ensures ApprovedParties(aps, c) == 0 <==> forall i :: 0 <= i < |aps| && aps[i].contract == c ==> !aps[i].isApproved
  {
    CountMono(aps, (x: Approval) => x.contract == c && x.isApproved, (x: Approval) => x.contract == c);
    CountZero(aps, (x: Approval) => x.contract == c && x.isApproved);
  }

  /** can_be_completed as written: two signatures, the system approval and three approvals. */
  predicate CanBeCompleted(k: Contract, ss: seq<Signature>, aps: seq<Approval>)
  {
    SignedParties(ss, k.id) >= 2 && k.systemApproved && ApprovedParties(aps, k.id) >= 3
  }

  /** Completion needs at least two signature rows and three approval rows of the contract. A
      self-contract, which only enrols its creator, therefore never completes on its own signature. */
  lemma CompletionNeedsRows(k: Contract, ss: seq<Signature>, aps: seq<Approval>)
    ensures CanBeCompleted(k, ss, aps) ==> SignatureRows(ss, k.id) >= 2 && ApprovalRows(aps, k.id) >= 3
    ensures SignatureRows(ss, k.id) <= 1 ==> !CanBeCompleted(k, ss, aps)
    ensures !k.systemApproved ==> !CanBeCompleted(k, ss, aps)
  {
    SignedPartiesAtMostRows(ss, k.id);
    ApprovedPartiesAtMostRows(aps, k.id);
  }

  /** user_has_approved: false for a missing or anonymous user (None). */
  predicate UserHasApproved(aps: seq<Approval>, c: Id, user: Option<Id>)
  {
    user.Some? && IndexWhere(aps, (x: Approval) => x.contract == c && x.user == user.value && x.isApproved).Some?
  }

  lemma UserHasApprovedMeaning(aps: seq<Approval>, c: Id, user: Option<Id>)
    ensures user.None? ==> !UserHasApproved(aps, c, user)
    ensures UserHasApproved(aps, c, user) <==>
      user.Some? && exists i :: 0 <= i < |aps| && aps[i].contract == c && aps[i].user == user.value && aps[i].isApproved
    ensures UserHasApproved(aps, c, user) ==> ApprovedParties(aps, c) >= 1
  {
    if UserHasApproved(aps, c, user) {
      CountZero(aps, (x: Approval) => x.contract == c && x.isApproved);
    }
  }

  // ---------------------------------------------------------------------------------
  // Model helpers the views call but the shown models.py does not define. The bodies are
  // this model's choice, read off how the views use them as guards.
  // ---------------------------------------------------------------------------------

  function DeclinedPartiesOn(ps: seq<Party>, c: Id): nat
  {
    Count(ps, (x: Party) => x.contract == c && x.invitationStatus == Declined)
  }

  predicate HasDeclinedParties(ps: seq<Party>, c: Id)
  {
    DeclinedPartiesOn(ps, c) > 0
  }

  lemma HasDeclinedPartiesMeaning(ps: seq<Party>, c: Id)
    ensures HasDeclinedParties(ps, c) <==>
      exists i :: 0 <= i < |ps| && ps[i].contract == c && ps[i].invitationStatus == Declined
  {
    CountZero(ps, (x: Party) => x.contract == c && x.invitationStatus == Declined);
  }

  /** check_integrity: a completed contract must not be touched. */
  predicate IntegrityHolds(k: Contract)
  {
    k.status != Completed
  }

  /** is_editable_check: not completed, and no signature made yet unless some party declined. */
  predicate IsEditableCheck(k: Contract, ps: seq<Party>, ss: seq<Signature>)
  {
    k.status != Completed && (SignedParties(ss, k.id) == 0 || HasDeclinedParties(ps, k.id))
  }

  /** can_be_deleted: any contract that is not completed. */
  predicate CanBeDeleted(k: Contract)
  {
    k.status != Completed
  }

  /** check_removal_integrity: the contract is a draft and the party has neither signed nor approved. */
  predicate RemovalIntegrity(k: Contract, p: Party, ss: seq<Signature>, aps: seq<Approval>)
  {
    k.status == Draft
    && IndexWhere(ss, (x: Signature) => x.contract == k.id && x.party == p.id && x.isSigned).None?
    && (p.user.None? || !UserHasApproved(aps, k.id, p.user))
  }

  /** The lock: once completed, a contract passes none of the guards of edit, delete and remove-party. */
  lemma CompletedIsLocked(k: Contract, p: Party, ps: seq<Party>, ss: seq<Signature>, aps: seq<Approval>)
    requires k.status == Completed
    ensures !IntegrityHolds(k) && !IsEditableCheck(k, ps, ss) && !CanBeDeleted(k)
    ensures !RemovalIntegrity(k, p, ss, aps)
  {
  }

  lemma RemovalIntegrityMeaning(k: Contract, p: Party, ss: seq<Signature>, aps: seq<Approval>)
    ensures RemovalIntegrity(k, p, ss, aps) ==>
      k.status == Draft && forall i :: 0 <= i < |ss| && ss[i].contract == k.id && ss[i].party == p.id ==> !ss[i].isSigned
  {
  }

  // ---------------------------------------------------------------------------------
  // UserProfile.age
  // ---------------------------------------------------------------------------------

  /** (a.month, a.day) < (b.month, b.day), compared as Python compares tuples. */
  predicate MonthDayBefore(a: Date, b: Date)
  {
    a.month < b.month || (a.month == b.month && a.day < b.day)
  }

  /** a < b on dates: (year, month, day) in lexicographic order. */
  predicate DateBefore(a: Date, b: Date)
  {
    a.year < b.year || (a.year == b.year && MonthDayBefore(a, b))
  }

  /** The age in whole years on `today`, given in place of date.today(). */
  function Age(birth: Date, today: Date): (years: int)
    ensures years == today.year - birth.year || years == today.year - birth.year - 1
    ensures !DateBefore(today, birth) ==> years >= 0
  {
    today.year - birth.year - (if MonthDayBefore(today, birth) then 1 else 0)
  }

  /** The n-th birthday, (birth.year + n, birth.month, birth.day), is not after today. */
  predicate HasTurned(birth: Date, today: Date, n: int)
  {
    !DateBefore(today, Date(birth.year + n, birth.month, birth.day))
  }

  /** age is the number of birthdays reached: the largest n whose n-th birthday is not after today. */
  lemma AgeIsBirthdaysReached(birth: Date, today: Date, n: int)
    ensures HasTurned(birth, today, Age(birth, today))
    ensures !HasTurned(birth, today, Age(birth, today) + 1)
    ensures HasTurned(birth, today, n) <==> n <= Age(birth, today)
  {
  }
}
