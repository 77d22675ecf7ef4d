/**
 * contracts/context_processors.py: the two badge counts every page shows, the number of the
 * requester's contracts that someone else declined and the number of contracts the requester is
 * invited to and has not signed.
 */
module ContextProcessors {
  import opened Models
  import opened Database
  import opened Listings

  /**
   * contract.parties.filter(invitation_status='declined').exclude(user=u).exists(): a declined
   * party that is not u's own. exclude(user=u) keeps the parties without a user.
   */
  function OtherDeclined(ps: seq<Party>, c: Id, u: Id): (r: bool)
    ensures r <==> exists i :: 0 <= i < |ps| && ps[i].contract == c && ps[i].invitationStatus == Declined && ps[i].user != Some(u)
  {
    IndexWhere(ps, (x: Party) => x.contract == c && x.invitationStatus == Declined && x.user != Some(u)).Some?
  }

  /** declined_contracts_count: u's contracts with a party other than u that declined. */
  function DeclinedCount(cs: seq<Contract>, ps: seq<Party>, u: Id): nat
  {
    Count(cs, (k: Contract) => k.creator == u && OtherDeclined(ps, k.id, u))
  }

  /** The badge never exceeds the number of contracts the declined_contracts page lists. */
  lemma DeclinedCountAtMostListed(cs: seq<Contract>, ps: seq<Party>, u: Id)
    ensures DeclinedCount(cs, ps, u) <= |ListedDeclined(cs, ps, u)|
  {
    forall k: Contract | k.creator == u && OtherDeclined(ps, k.id, u) ensures IsListedDeclined(ps, k, u) {
      HasDeclinedPartiesMeaning(ps, k.id);
    }
    CountMono(cs, (k: Contract) => k.creator == u && OtherDeclined(ps, k.id, u), (k: Contract) => IsListedDeclined(ps, k, u));
  }

  /** The number of contracts u created. */
  function CreatedCount(cs: seq<Contract>, u: Id): nat
  {
    Count(cs, (k: Contract) => k.creator == u)
  }

  /** The badge never exceeds the number of contracts u created. */
  lemma DeclinedCountAtMostCreated(cs: seq<Contract>, ps: seq<Party>, u: Id)
    ensures DeclinedCount(cs, ps, u) <= CreatedCount(cs, u)
  {
    CountMono(cs, (k: Contract) => k.creator == u && OtherDeclined(ps, k.id, u), (k: Contract) => k.creator == u);
  }

  /** A contract whose only declined party is u's own does not raise the badge. */
  lemma OwnDeclineNotCounted(ps: seq<Party>, k: Contract, u: Id)
    requires forall i :: 0 <= i < |ps| && ps[i].contract == k.id && ps[i].invitationStatus == Declined ==> ps[i].user == Some(u)
    ensures !OtherDeclined(ps, k.id, u)
  {
  }

  /**
   * contract_counts: both counts are 0 for an anonymous visitor; otherwise the declined count comes
   * from the loop over the requester's contracts and the invited count from one query.
   */
  method ContractCounts(db: Db, requester: Option<Id>) returns (declinedCount: nat, invitedCount: nat)
    ensures requester.None? ==> declinedCount == 0 && invitedCount == 0
    ensures requester.Some? ==> declinedCount == DeclinedCount(db.contracts, db.parties, requester.value)
    ensures requester.Some? ==> invitedCount == InvitedCount(db.contracts, db.parties, db.signatures, requester.value)
    ensures requester.Some? ==> declinedCount <= |ListedDeclined(db.contracts, db.parties, requester.value)|
    ensures requester.Some? ==> declinedCount <= CreatedCount(db.contracts, requester.value)
    ensures requester.Some? ==> invitedCount <= PartyContracts(db.contracts, db.parties, requester.value)
  {
    if requester.None? {
      return 0, 0;
    }
    var u := requester.value;
    var cs, ps := db.contracts, db.parties;
    declinedCount := 0;
    var i := 0;
    while i < |cs|
      invariant 0 <= i <= |cs|
      invariant declinedCount == DeclinedCount(cs[..i], ps, u)
    {
      CountPrefixStep(cs, i, (k: Contract) => k.creator == u && OtherDeclined(ps, k.id, u));
      var contract := cs[i];
      if contract.creator == u {
        var otherDeclined := OtherDeclined(ps, contract.id, u);
        if otherDeclined {
          declinedCount := declinedCount + 1;
        }
      }
      i := i + 1;
    }
    assert cs[..|cs|] == cs;
    DeclinedCountAtMostListed(cs, ps, u);
    DeclinedCountAtMostCreated(cs, ps, u);
    invitedCount := InvitedCount(cs, ps, db.signatures, u);
    InvitedCountAtMostPartyContracts(cs, ps, db.signatures, u);
  }
}
