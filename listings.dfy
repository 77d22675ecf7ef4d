/**
 * The two listing views of contracts/views.py that compute something: invited_contracts, which
 * collects the requester's open invitations in a loop and sorts them newest first, and
 * declined_contracts, which lists the requester's contracts that have a declined party and tallies
 * the declined parties, with and without a reason, in nested loops. Both only read the tables.
 */
module Listings {
  import opened Models
  import opened Database

  // ---------------------------------------------------------------------------------
  // invited_contracts
  // ---------------------------------------------------------------------------------

  /** One row of the invited list: the contract with the requester's invitation status, role and signature. */
  datatype InvitedEntry = InvitedEntry(
    contract: Contract,
    invitationStatus: InvitationStatus,
    role: Role,
    signature: Option<Signature>,
    canSign: bool)

  /** ContractParty.objects.filter(user=u, invitation_status__in=['pending', 'accepted']). */
  predicate IsOpenInvitation(p: Party, u: Id)
  {
    p.user == Some(u) && (p.invitationStatus == Pending || p.invitationStatus == Accepted)
  }

  /** contract.signatures.filter(user=u).first(): the lowest-keyed signature of u on contract c. */
  function FirstSignatureOf(ss: seq<Signature>, c: Id, u: Id): (r: Option<Signature>)
    ensures r.Some? ==> r.value in ss && r.value.contract == c && r.value.user == u
    ensures r.None? ==> forall i :: 0 <= i < |ss| ==> !(ss[i].contract == c && ss[i].user == u)
  {
    var k := IndexWhere(ss, (x: Signature) => x.contract == c && x.user == u);
    if k.Some? then Some(ss[k.value]) else None
  }

  /** The loop skips an invitation whose contract the requester has signed. */
  predicate ShowsInvitation(ss: seq<Signature>, p: Party, u: Id)
  {
    IsOpenInvitation(p, u)
    && !(FirstSignatureOf(ss, p.contract, u).Some? && FirstSignatureOf(ss, p.contract, u).value.isSigned)
  }

  /** Every party row belongs to a contract row: the foreign key invited_contracts follows. */
  predicate PartiesHaveContracts(cs: seq<Contract>, ps: seq<Party>)
  {
    forall i :: 0 <= i < |ps| ==> ContractIndex(cs, ps[i].contract).Some?
  }

  lemma ValidPartiesHaveContracts(cs: seq<Contract>, ps: seq<Party>, next: nat)
    requires PartiesValid(ps, cs, next)
    ensures PartiesHaveContracts(cs, ps)
  {
    forall i | 0 <= i < |ps| ensures ContractIndex(cs, ps[i].contract).Some? {
      assert ps[i].contract in ContractIds(cs);
      var k :| 0 <= k < |cs| && cs[k].id == ps[i].contract;
    }
  }

  function EntryFor(cs: seq<Contract>, ss: seq<Signature>, p: Party, u: Id): InvitedEntry
    requires ContractIndex(cs, p.contract).Some?
  {
    var sig := FirstSignatureOf(ss, p.contract, u);
    InvitedEntry(cs[ContractIndex(cs, p.contract).value], p.invitationStatus, p.role, sig, sig.Some? && !sig.value.isSigned)
  }

  /** The list invited_contracts builds before sorting, in party order. */
  function Invited(cs: seq<Contract>, ps: seq<Party>, ss: seq<Signature>, u: Id): seq<InvitedEntry>
    requires PartiesHaveContracts(cs, ps)
  {
    if |ps| == 0 then []
    else
      var n := |ps| - 1;
      Invited(cs, ps[..n], ss, u) + (if ShowsInvitation(ss, ps[n], u) then [EntryFor(cs, ss, ps[n], u)] else [])
  }

  /**
   * Every entry is an open invitation of u on a contract u has not signed, and every open
   * invitation of u on a contract u has not signed has its entry.
   */
  lemma {:induction false} InvitedMeaning(cs: seq<Contract>, ps: seq<Party>, ss: seq<Signature>, u: Id)
    requires PartiesHaveContracts(cs, ps)
    ensures forall e :: e in Invited(cs, ps, ss, u) ==>
              (e.invitationStatus == Pending || e.invitationStatus == Accepted)
              && !(e.signature.Some? && e.signature.value.isSigned) && e.canSign == e.signature.Some?
              && exists i :: 0 <= i < |ps| && IsOpenInvitation(ps[i], u) && ps[i].contract == e.contract.id
    ensures forall i :: 0 <= i < |ps| && ShowsInvitation(ss, ps[i], u) ==> EntryFor(cs, ss, ps[i], u) in Invited(cs, ps, ss, u)
  {
    if |ps| > 0 {
      var n := |ps| - 1;
      InvitedMeaning(cs, ps[..n], ss, u);
      forall e | e in Invited(cs, ps, ss, u)
        ensures exists i :: 0 <= i < |ps| && IsOpenInvitation(ps[i], u) && ps[i].contract == e.contract.id
      {
        if e in Invited(cs, ps[..n], ss, u) {
          var i :| 0 <= i < n && IsOpenInvitation(ps[..n][i], u) && ps[..n][i].contract == e.contract.id;
          assert ps[i] == ps[..n][i];
        } else {
          assert ps[n].contract == e.contract.id;
        }
      }
      forall i | 0 <= i < |ps| && ShowsInvitation(ss, ps[i], u) ensures EntryFor(cs, ss, ps[i], u) in Invited(cs, ps, ss, u) {
        if i < n {
          assert ps[..n][i] == ps[i];
        }
      }
    }
  }

  /** The sort key, descending: contracts later in time come first. */
  predicate SortedNewestFirst(s: seq<InvitedEntry>)
  {
    forall i, j :: 0 <= i < j < |s| ==> s[i].contract.createdAt >= s[j].contract.createdAt
  }

  /** e placed before the first element of s that is not newer than it. */
  function InsertNewestFirst(e: InvitedEntry, s: seq<InvitedEntry>): seq<InvitedEntry>
  {
    if |s| == 0 || s[0].contract.createdAt <= e.contract.createdAt then [e] + s
    else [s[0]] + InsertNewestFirst(e, s[1..])
  }

  /** list.sort(key=lambda x: x.created_at, reverse=True), a stable sort. */
  function SortNewestFirst(s: seq<InvitedEntry>): seq<InvitedEntry>
  {
    if |s| == 0 then [] else InsertNewestFirst(s[0], SortNewestFirst(s[1..]))
  }

  /** Inserting adds e and nothing else. */
  lemma {:induction false} InsertNewestFirstPermutes(e: InvitedEntry, s: seq<InvitedEntry>)
    ensures multiset(InsertNewestFirst(e, s)) == multiset(s) + multiset{e}
  {
    if !(|s| == 0 || s[0].contract.createdAt <= e.contract.createdAt) {
      InsertNewestFirstPermutes(e, s[1..]);
      assert s == [s[0]] + s[1..];
    }
  }

  /** Inserting into a newest-first list keeps it newest first. */
  lemma {:induction false} InsertNewestFirstSorted(e: InvitedEntry, s: seq<InvitedEntry>)
    requires SortedNewestFirst(s)
    ensures SortedNewestFirst(InsertNewestFirst(e, s))
  {
    if !(|s| == 0 || s[0].contract.createdAt <= e.contract.createdAt) {
      var t := InsertNewestFirst(e, s[1..]);
      InsertNewestFirstSorted(e, s[1..]);
      InsertNewestFirstPermutes(e, s[1..]);
      forall j | 0 <= j < |t| ensures s[0].contract.createdAt >= t[j].contract.createdAt {
        assert t[j] in multiset(s[1..]) + multiset{e};
        if t[j] != e {
          assert t[j] in s[1..];
        }
      }
    }
  }

  /** The sorted list is newest first and holds exactly the entries of the unsorted one. */
  lemma {:induction false} SortNewestFirstMeaning(s: seq<InvitedEntry>)
    ensures SortedNewestFirst(SortNewestFirst(s))
    ensures multiset(SortNewestFirst(s)) == multiset(s)
  {
    if |s| > 0 {
      SortNewestFirstMeaning(s[1..]);
      InsertNewestFirstSorted(s[0], SortNewestFirst(s[1..]));
      InsertNewestFirstPermutes(s[0], SortNewestFirst(s[1..]));
      assert s == [s[0]] + s[1..];
    }
  }

  function CountStatus(s: seq<InvitedEntry>, status: InvitationStatus): nat
  {
    Count(s, (e: InvitedEntry) => e.invitationStatus == status)
  }

  /** The page's invited_contracts_count: entries whose status is pending or accepted. */
  function CountOpen(s: seq<InvitedEntry>): nat
  {
    Count(s, (e: InvitedEntry) => e.invitationStatus == Pending || e.invitationStatus == Accepted)
  }

  /** Every listed invitation is pending or accepted, so the declined tally is always 0. */
  lemma {:induction false} InvitedTallies(s: seq<InvitedEntry>)
    requires forall i :: 0 <= i < |s| ==> s[i].invitationStatus == Pending || s[i].invitationStatus == Accepted
    ensures CountStatus(s, Pending) + CountStatus(s, Accepted) == |s|
    ensures CountStatus(s, Declined) == 0
    ensures CountOpen(s) == |s|
  {
    if |s| > 0 {
      InvitedTallies(s[..|s| - 1]);
    }
  }

  /** The sorted page: newest first, the same entries as the loop collected, and the tallies it shows. */
  lemma SortedInvitationsMeaning(cs: seq<Contract>, ps: seq<Party>, ss: seq<Signature>, u: Id)
    requires PartiesHaveContracts(cs, ps)
    ensures var entries := SortNewestFirst(Invited(cs, ps, ss, u));
            && multiset(entries) == multiset(Invited(cs, ps, ss, u))
            && SortedNewestFirst(entries)
            && (forall e :: e in entries ==> !(e.signature.Some? && e.signature.value.isSigned))
            && (forall i :: 0 <= i < |ps| && ShowsInvitation(ss, ps[i], u) ==> EntryFor(cs, ss, ps[i], u) in entries)
            && CountStatus(entries, Pending) + CountStatus(entries, Accepted) == |entries|
            && CountStatus(entries, Declined) == 0 && CountOpen(entries) == |entries|
  {
    var list := Invited(cs, ps, ss, u);
    var entries := SortNewestFirst(list);
    SortNewestFirstMeaning(list);
    InvitedMeaning(cs, ps, ss, u);
    forall e | e in entries ensures !(e.signature.Some? && e.signature.value.isSigned)
                               && (e.invitationStatus == Pending || e.invitationStatus == Accepted) {
      assert e in multiset(list);
    }
    forall j | 0 <= j < |ps| && ShowsInvitation(ss, ps[j], u) ensures EntryFor(cs, ss, ps[j], u) in entries {
      assert EntryFor(cs, ss, ps[j], u) in multiset(list);
    }
    InvitedTallies(entries);
  }

  /** The loop of invited_contracts: one entry per open invitation whose contract the requester has not signed. */
  method CollectInvitations(cs: seq<Contract>, ps: seq<Party>, ss: seq<Signature>, requester: Id) returns (list: seq<InvitedEntry>)
    requires PartiesHaveContracts(cs, ps)
    ensures list == Invited(cs, ps, ss, requester)
  {
    list := [];
    var i := 0;
    while i < |ps|
      invariant 0 <= i <= |ps|
      invariant list == Invited(cs, ps[..i], ss, requester)
    {
      assert ps[..i + 1][..i] == ps[..i];
      var party := ps[i];
      if !IsOpenInvitation(party, requester) {
        i := i + 1;
        continue;
      }
      var sig := FirstSignatureOf(ss, party.contract, requester);
      if sig.Some? && sig.value.isSigned {
        i := i + 1;
        continue;
      }
      var contract := cs[ContractIndex(cs, party.contract).value];
      list := list + [InvitedEntry(contract, party.invitationStatus, party.role, sig, sig.Some? && !sig.value.isSigned)];
      i := i + 1;
    }
    assert ps[..|ps|] == ps;
  }

  /**
   * invited_contracts: the requester's open invitations on contracts they have not signed, newest
   * contract first, and the pending, accepted and declined tallies of the page.
   */
  method InvitedContracts(db: Db, requester: Id)
    returns (entries: seq<InvitedEntry>, pending: nat, accepted: nat, declined: nat, invitedCount: nat)
    requires db.Valid()
    ensures PartiesHaveContracts(db.contracts, db.parties)
    ensures multiset(entries) == multiset(Invited(db.contracts, db.parties, db.signatures, requester))
    ensures SortedNewestFirst(entries)
    ensures forall e :: e in entries ==> !(e.signature.Some? && e.signature.value.isSigned)
    ensures forall i :: 0 <= i < |db.parties| && ShowsInvitation(db.signatures, db.parties[i], requester) ==>
              EntryFor(db.contracts, db.signatures, db.parties[i], requester) in entries
    ensures pending == CountStatus(entries, Pending) && accepted == CountStatus(entries, Accepted)
    ensures pending + accepted == |entries| && declined == 0 && invitedCount == |entries|
  {
    var cs, ps, ss := db.contracts, db.parties, db.signatures;
    ValidPartiesHaveContracts(cs, ps, db.nextId);
    var list := CollectInvitations(cs, ps, ss, requester);
    entries := SortNewestFirst(list);
    SortedInvitationsMeaning(cs, ps, ss, requester);
    pending := CountStatus(entries, Pending);
    accepted := CountStatus(entries, Accepted);
    declined := CountStatus(entries, Declined);
    invitedCount := CountOpen(entries);
  }

  // ---------------------------------------------------------------------------------
  // invited_contracts_count, computed by declined_contracts and by the context processor
  // ---------------------------------------------------------------------------------

  /** contract k has a party of u, with a user, whose invitation is pending or accepted (one filter() call: the same party). */
  function InvitedOn(ps: seq<Party>, k: Id, u: Id): (r: bool)
    ensures r <==> exists i :: 0 <= i < |ps| && ps[i].contract == k && IsOpenInvitation(ps[i], u)
  {
    var i := IndexWhere(ps, (x: Party) => x.contract == k && IsOpenInvitation(x, u));
    i.Some?
  }

  /** u has a signed signature row on contract k. */
  function SignedBy(ss: seq<Signature>, k: Id, u: Id): (r: bool)
    ensures r <==> exists i :: 0 <= i < |ss| && ss[i].contract == k && ss[i].user == u && ss[i].isSigned
  {
    var i := IndexWhere(ss, (x: Signature) => x.contract == k && x.user == u && x.isSigned);
    i.Some?
  }

  /**
   * .exclude(signatures__user=u, signatures__is_signed=True) as Django evaluates it across a
   * multi-valued relation: the two conditions need not hold of the same signature row.
   */
  function ExcludedAsWritten(ss: seq<Signature>, k: Id, u: Id): (r: bool)
    ensures r <==> (exists i :: 0 <= i < |ss| && ss[i].contract == k && ss[i].user == u)
                   && (exists j :: 0 <= j < |ss| && ss[j].contract == k && ss[j].isSigned)
  {
    var i := IndexWhere(ss, (x: Signature) => x.contract == k && x.user == u);
    var j := IndexWhere(ss, (x: Signature) => x.contract == k && x.isSigned);
    i.Some? && j.Some?
  }

  /** The invited-contracts count as the query is written. */
  function InvitedCountAsWritten(cs: seq<Contract>, ps: seq<Party>, ss: seq<Signature>, u: Id): nat
  {
    Count(cs, (c: Contract) => InvitedOn(ps, c.id, u) && !ExcludedAsWritten(ss, c.id, u))
  }

  /** The invited-contracts count as intended: contracts u is invited to and has not signed. */
  function InvitedCount(cs: seq<Contract>, ps: seq<Party>, ss: seq<Signature>, u: Id): nat
  {
    Count(cs, (c: Contract) => InvitedOn(ps, c.id, u) && !SignedBy(ss, c.id, u))
  }

  /** The query as written never counts more than intended: a signature of u that is signed satisfies both conditions. */
  lemma InvitedCountAsWrittenAtMost(cs: seq<Contract>, ps: seq<Party>, ss: seq<Signature>, u: Id)
    ensures InvitedCountAsWritten(cs, ps, ss, u) <= InvitedCount(cs, ps, ss, u)
  {
    CountMono(cs, (c: Contract) => InvitedOn(ps, c.id, u) && !ExcludedAsWritten(ss, c.id, u),
                  (c: Contract) => InvitedOn(ps, c.id, u) && !SignedBy(ss, c.id, u));
  }

  /** u has a party row on contract k, whatever its invitation status. */
  predicate IsPartyTo(ps: seq<Party>, k: Id, u: Id)
  {
    exists i :: 0 <= i < |ps| && ps[i].contract == k && ps[i].user == Some(u)
  }

  /** The number of contracts u is a party to. */
  function PartyContracts(cs: seq<Contract>, ps: seq<Party>, u: Id): nat
  {
    Count(cs, (c: Contract) => IsPartyTo(ps, c.id, u))
  }

  /** The invited count never exceeds the number of contracts u is a party to. */
  lemma InvitedCountAtMostPartyContracts(cs: seq<Contract>, ps: seq<Party>, ss: seq<Signature>, u: Id)
    ensures InvitedCount(cs, ps, ss, u) <= PartyContracts(cs, ps, u)
  {
    CountMono(cs, (c: Contract) => InvitedOn(ps, c.id, u) && !SignedBy(ss, c.id, u),
                  (c: Contract) => IsPartyTo(ps, c.id, u));
  }

  /**
   * Once the creator has signed, a pending invitee whose own signature row is still unsigned drops
   * out of the count as written but not out of the intended count.
   */
  lemma InvitedCountAsWrittenDropsUnsignedInvitee()
    ensures var k := Contract(1, 7, "t", "c", None, Draft, Private, false, true, false, Date(2030, 1, 1), Some(12), false, 0, None);
            var ps := [Party(2, 1, Some(7), "", "", PartyRole, Accepted, "", None), Party(3, 1, Some(8), "", "", PartyRole, Pending, "", None)];
            var ss := [Signature(4, 1, 2, 7, true, None, Some(5), None), Signature(5, 1, 3, 8, false, Some("123456"), None, None)];
            InvitedCountAsWritten([k], ps, ss, 8) == 0 && InvitedCount([k], ps, ss, 8) == 1
  {
    var k := Contract(1, 7, "t", "c", None, Draft, Private, false, true, false, Date(2030, 1, 1), Some(12), false, 0, None);
    var ps := [Party(2, 1, Some(7), "", "", PartyRole, Accepted, "", None), Party(3, 1, Some(8), "", "", PartyRole, Pending, "", None)];
    var ss := [Signature(4, 1, 2, 7, true, None, Some(5), None), Signature(5, 1, 3, 8, false, Some("123456"), None, None)];
    assert InvitedOn(ps, 1, 8) by {
      assert ps[1].contract == 1 && IsOpenInvitation(ps[1], 8);
    }
    assert ExcludedAsWritten(ss, 1, 8) by {
      assert ss[1].contract == 1 && ss[1].user == 8;
      assert ss[0].contract == 1 && ss[0].isSigned;
    }
    assert !SignedBy(ss, 1, 8);
    assert [k][..0] == [];
  }

  /** A contract the intended count includes has an open invitation of u that invited_contracts shows. */
  lemma CountedInvitationIsShown(ps: seq<Party>, ss: seq<Signature>, k: Id, u: Id)
    requires InvitedOn(ps, k, u) && !SignedBy(ss, k, u)
    ensures exists i :: 0 <= i < |ps| && ps[i].contract == k && ShowsInvitation(ss, ps[i], u)
  {
    var i :| 0 <= i < |ps| && ps[i].contract == k && IsOpenInvitation(ps[i], u);
    var sig := FirstSignatureOf(ss, k, u);
    if sig.Some? {
      var j :| 0 <= j < |ss| && ss[j] == sig.value;
      assert !ss[j].isSigned;
    }
    assert ShowsInvitation(ss, ps[i], u);
  }

  // ---------------------------------------------------------------------------------
  // declined_contracts
  // ---------------------------------------------------------------------------------

  /** Contract.objects.filter(creator=u, parties__invitation_status='declined').distinct(). */
  predicate IsListedDeclined(ps: seq<Party>, k: Contract, u: Id)
  {
    k.creator == u && HasDeclinedParties(ps, k.id)
  }

  /** The contracts declined_contracts lists, in table order. */
  function ListedDeclined(cs: seq<Contract>, ps: seq<Party>, u: Id): seq<Contract>
  {
    Filter(cs, (k: Contract) => IsListedDeclined(ps, k, u))
  }

  function DeclinedWithReason(ps: seq<Party>, c: Id): nat
  {
    Count(ps, (x: Party) => x.contract == c && x.invitationStatus == Declined && x.declineReason != "")
  }

  function DeclinedWithoutReason(ps: seq<Party>, c: Id): nat
  {
    Count(ps, (x: Party) => x.contract == c && x.invitationStatus == Declined && x.declineReason == "")
  }

  /** Each declined party of a contract either gave a reason or did not. */
  lemma {:induction false} DeclinedReasonSplit(ps: seq<Party>, c: Id)
    ensures DeclinedWithReason(ps, c) + DeclinedWithoutReason(ps, c) == DeclinedPartiesOn(ps, c)
  {
    if |ps| > 0 {
      DeclinedReasonSplit(ps[..|ps| - 1], c);
    }
  }

  /** total_declined_parties over the listed contracts among cs. */
  function TallyDeclined(cs: seq<Contract>, ps: seq<Party>, u: Id): nat
  {
    if |cs| == 0 then 0
    else
      var k := cs[|cs| - 1];
      TallyDeclined(cs[..|cs| - 1], ps, u) + (if IsListedDeclined(ps, k, u) then DeclinedPartiesOn(ps, k.id) else 0)
  }

  /** parties_with_reason over the listed contracts among cs. */
  function TallyWithReason(cs: seq<Contract>, ps: seq<Party>, u: Id): nat
  {
    if |cs| == 0 then 0
    else
      var k := cs[|cs| - 1];
      TallyWithReason(cs[..|cs| - 1], ps, u) + (if IsListedDeclined(ps, k, u) then DeclinedWithReason(ps, k.id) else 0)
  }

  /** parties_without_reason over the listed contracts among cs. */
  function TallyWithoutReason(cs: seq<Contract>, ps: seq<Party>, u: Id): nat
  {
    if |cs| == 0 then 0
    else
      var k := cs[|cs| - 1];
      TallyWithoutReason(cs[..|cs| - 1], ps, u) + (if IsListedDeclined(ps, k, u) then DeclinedWithoutReason(ps, k.id) else 0)
  }

  /** parties_with_reason + parties_without_reason = total_declined_parties. */
  lemma {:induction false} TallySplit(cs: seq<Contract>, ps: seq<Party>, u: Id)
    ensures TallyWithReason(cs, ps, u) + TallyWithoutReason(cs, ps, u) == TallyDeclined(cs, ps, u)
  {
    if |cs| > 0 {
      TallySplit(cs[..|cs| - 1], ps, u);
      DeclinedReasonSplit(ps, cs[|cs| - 1].id);
    }
  }

  /** Every listed contract has at least one declined party, so the party tally is at least the number of contracts listed. */
  lemma {:induction false} TallyAtLeastListed(cs: seq<Contract>, ps: seq<Party>, u: Id)
    ensures TallyDeclined(cs, ps, u) >= |ListedDeclined(cs, ps, u)|
  {
    if |cs| > 0 {
      var n := |cs| - 1;
      TallyAtLeastListed(cs[..n], ps, u);
      assert cs[..n] == cs[..|cs| - 1];
    }
  }

  /** The inner loop of declined_contracts: the declined parties of contract c, with and without a reason. */
  method TallyParties(ps: seq<Party>, c: Id) returns (total: nat, withReason: nat, withoutReason: nat)
    ensures total == DeclinedPartiesOn(ps, c)
    ensures withReason == DeclinedWithReason(ps, c) && withoutReason == DeclinedWithoutReason(ps, c)
  {
    total, withReason, withoutReason := 0, 0, 0;
    var j := 0;
    while j < |ps|
      invariant 0 <= j <= |ps|
      invariant total == DeclinedPartiesOn(ps[..j], c)
      invariant withReason == DeclinedWithReason(ps[..j], c)
      invariant withoutReason == DeclinedWithoutReason(ps[..j], c)
    {
      assert ps[..j + 1][..j] == ps[..j];
      var party := ps[j];
      if party.contract == c && party.invitationStatus == Declined {
        total := total + 1;
        if party.declineReason != "" {
          withReason := withReason + 1;
        } else {
          withoutReason := withoutReason + 1;
        }
      }
      j := j + 1;
    }
    assert ps[..|ps|] == ps;
  }

  /**
   * declined_contracts: the requester's contracts with a declined party, and the declined parties
   * counted in total, with a reason and without one.
   */
  method DeclinedContracts(db: Db, requester: Id)
    returns (listing: seq<Contract>, total: nat, withReason: nat, withoutReason: nat, invitedCount: nat)
    ensures listing == ListedDeclined(db.contracts, db.parties, requester)
    ensures total == TallyDeclined(db.contracts, db.parties, requester)
    ensures withReason == TallyWithReason(db.contracts, db.parties, requester)
    ensures withoutReason == TallyWithoutReason(db.contracts, db.parties, requester)
    ensures withReason + withoutReason == total && total >= |listing|
    ensures invitedCount == InvitedCount(db.contracts, db.parties, db.signatures, requester)
  {
    var cs, ps := db.contracts, db.parties;
    listing, total, withReason, withoutReason := [], 0, 0, 0;
    var i := 0;
    while i < |cs|
      invariant 0 <= i <= |cs|
      invariant listing == ListedDeclined(cs[..i], ps, requester)
      invariant total == TallyDeclined(cs[..i], ps, requester)
      invariant withReason == TallyWithReason(cs[..i], ps, requester)
      invariant withoutReason == TallyWithoutReason(cs[..i], ps, requester)
    {
      assert cs[..i + 1][..i] == cs[..i];
      var contract := cs[i];
      if IsListedDeclined(ps, contract, requester) {
        listing := listing + [contract];
        var t, w, wo := TallyParties(ps, contract.id);
        total, withReason, withoutReason := total + t, withReason + w, withoutReason + wo;
      }
      i := i + 1;
    }
    assert cs[..|cs|] == cs;
    TallySplit(cs, ps, requester);
    TallyAtLeastListed(cs, ps, requester);
    invitedCount := InvitedCount(cs, ps, db.signatures, requester);
  }
}
