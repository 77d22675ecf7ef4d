# Contract lifecycle of the `contracts` Django app, modelled in Dafny

This project models how the `contracts` app creates, signs, approves, declines, recreates,
edits and deletes contracts. It also models the listings and badge counts the app shows.

The database is a class `Database.Db` with one sequence of rows per table: contracts,
parties, signatures and approvals. Rows are kept in primary-key order, and `nextId` hands out
fresh keys. Its invariant `Valid()` covers three database guarantees:
- keys are fresh and increasing;
- foreign keys resolve;
- the `unique_together` constraints hold: `(contract, user)` for parties and approvals, and
  `(contract, party)` for signatures.

Every row operation the views use keeps that invariant and states the whole new table:
- insertion, where a `unique_together` clash is an `IntegrityError`;
- get-or-create;
- save;
- delete with cascade.

`Contract.mark_as_completed` lives there too, because it saves a row.

Each view of `contracts/views.py` that changes state is a method over `Db`. Its result is a
`Views.Response`: not found, refused with a reason, done, created, recorded, or a server error
for an exception the view does not catch. The method's contract states the new tables on every
path:
- a refusal changes nothing;
- an uncaught exception leaves in place the rows already saved, since the views use no
  transaction.

Some views are modelled as loops proved against a specification function:
- `invited_contracts` and `declined_contracts` walk the tables the way the view does;
- the declined count of `context_processors.contract_counts` is a loop as well.

Pure pieces are Dafny functions with lemmas about them:
- the form validation;
- `get_client_ip`;
- the PDF file-name sanitising;
- `str.strip`;
- the age computation.

The clock (`timezone.now()`, `date.today()`), the generated six-digit signature codes, the
posted form and the request headers are all parameters. Codes are given as strings of six
ASCII digits.

Where the shown source disagrees with itself, the model follows the views. `models.py` as
shown lacks several fields that the views read and write:
- on a contract: `is_self_contract`, `start_date`, `duration_months` and `is_indefinite`;
- on a party: `decline_reason` and `declined_at`, the manual `name` and `email` columns, and a
  nullable `user`.

The model gives contracts and parties those fields, as the views use them.

Completion follows the code:
- `can_be_completed` (`contracts/models.py:97-100`) needs two signed signatures,
  `system_approved` and three approvals for every contract, self contracts included;
- no view ever sets `system_approved`.

The model states this as `Models.CompletionNeedsRows`.

The views call `check_integrity`, `is_editable_check`, `can_be_deleted`,
`has_declined_parties` and `check_removal_integrity`, but `models.py` as shown defines none of
them. The model gives them these bodies:
- `check_integrity`: the contract is not completed;
- `is_editable_check`: not completed, and either nothing signed yet or some party declined;
- `can_be_deleted`: the contract is not completed;
- `has_declined_parties`: some party of the contract declined;
- `check_removal_integrity`: the contract is a draft, and the party has neither signed nor
  approved.

These bodies are the model's own choice, read off how the views use the five guards.

Some behaviours of the source, as written, are kept in the model:
- `contract_sign` tests `hasattr(user_party, 'signature')`. The related name is `signatures`,
  so this test is always false, and every GET and every failed POST issues a new code
  (`Views.ContractSign`, `Views.ContractSignPage`).
- In `contract_sign`, a newly created signature has no code. A POST without a code then
  matches it (`None == None`) and signs.
- In `contract_create`, naming the creator as the second party breaks `unique_together` after
  the contract and the creator's party are saved. The view answers with a server error and
  leaves those rows in place.
- `declined_contract_recreate` runs none of `contract_create`'s checks. It does not force a
  self contract to be private, and it archives the original only at the end.

The project has six files:
- `models.dfy`: rows, queries, model properties and age;
- `database.dfy`: tables, invariant and row operations;
- `helpers.dfy`: pure view helpers;
- `views.dfy`: state-changing views;
- `listings.dfy`: the invited and declined listings, and the invited-contracts count;
- `counters.dfy`: the context processor.

## Model

| member | source | states |
|---|---|---|
| Models.AtMostOnePartyPerUser | contracts/models.py:145 | rows that pairwise respect unique_together hold at most one party per (contract, user) |
| Models.AtMostOneSignaturePerParty | contracts/models.py:175 | at most one signature per (contract, party) |
| Models.AtMostOneApprovalPerUser | contracts/models.py:194 | at most one approval per (contract, user) |
| Models.ContractIndex | contracts/views.py:586 | get_object_or_404(Contract, pk): the index of the row with that key, or none exists |
| Models.OwnedContractIndex | contracts/views.py:371 | get_object_or_404(Contract, pk, creator): found only if the row's creator is the requester |
| Models.PartyIndex | contracts/views.py:587 | the first party row of (contract, user), or none exists |
| Models.PartyIdIndex | contracts/views.py:563 | get_object_or_404(ContractParty, id, contract): a party with that key on that contract |
| Models.SignatureIndex | contracts/views.py:634-637 | ContractSignature.objects.get(contract, party): the row with that key, or none exists |
| Models.ApprovalIndex | contracts/views.py:704-708 | the approval looked up by get_or_create(contract, user), or none exists |
| Models.UserIndex | contracts/views.py:246 | User.objects.get(id): the user with that id, or none exists |
| Models.SignedPartiesAtMostRows | contracts/models.py:89-91 | signed_parties counts only signed signatures of the contract; it is 0 exactly when none is signed |
| Models.ApprovedPartiesAtMostRows | contracts/models.py:93-95 | approved_parties counts only approved approvals; it is 0 exactly when none is approved |
| Models.CompletionNeedsRows | contracts/models.py:97-100 | can_be_completed needs at least two signature rows, three approval rows and system_approved; a contract with at most one signature row never completes |
| Models.UserHasApprovedMeaning | contracts/models.py:102-106 | user_has_approved is false for an anonymous user, and otherwise true exactly when that user has an approved approval on the contract, which makes approved_parties at least 1 |
| Models.HasDeclinedPartiesMeaning | contracts/views.py:414 | has_declined_parties holds exactly when some party of the contract declined |
| Models.CompletedIsLocked | contracts/views.py:374-382 | a completed contract fails check_integrity, is_editable_check, can_be_deleted and check_removal_integrity |
| Models.RemovalIntegrityMeaning | contracts/views.py:566-570 | a party passes the removal check only on a draft contract where none of its signatures is signed |
| Models.Age | contracts/models.py:238-245 | the age is the year difference, or one less before this year's birthday; it is never negative for a birth date not after today |
| Models.AgeIsBirthdaysReached | contracts/models.py:238-245 | the age is the number of birthdays reached: the n-th birthday is not after today exactly when n is at most the age |
| Database.UniqueKeys | contracts/models.py:145-194 | valid tables hold each unique_together key at most once |
| Database.CascadeKeepsValid | contracts/models.py:127-185 | deleting a contract with on_delete=CASCADE to its parties, signatures and approvals leaves valid tables |
| Database.PartyCascadeKeepsValid | contracts/models.py:164 | deleting a party with CASCADE to its signatures leaves valid tables |
| Database.Db.InsertContract | contracts/views.py:204-213 | Contract.objects.create appends the row under a fresh key, and the tables stay valid |
| Database.Db.InsertParty | contracts/views.py:228-232 | ContractParty.objects.create appends the row, or fails with IntegrityError exactly when the user is already a party |
| Database.Db.InsertSignature | contracts/views.py:236-241 | ContractSignature.objects.create appends a row for an existing party of the contract |
| Database.Db.GetOrCreateApproval | contracts/views.py:704-708 | get_or_create returns the existing approval unchanged, or appends a new unapproved one with the client IP |
| Database.Db.UpdateContract | contracts/views.py:388 | contract.save() replaces one row and keeps the keys |
| Database.Db.UpdateParty | contracts/views.py:597 | party.save() replaces one row and keeps the keys |
| Database.Db.UpdateSignature | contracts/views.py:649 | signature.save() replaces one row and keeps the keys |
| Database.Db.UpdateApproval | contracts/views.py:713 | approval.save() replaces one row and keeps the keys |
| Database.Db.MarkAsCompleted | contracts/models.py:108-116 | returns can_be_completed; when it holds, the contract becomes completed, gets completed_at = now and is not editable; otherwise nothing changes |
| Database.Db.DeleteContract | contracts/views.py:537 | contract.delete() removes the contract with its parties, signatures and approvals |
| Database.Db.DeleteParty | contracts/views.py:575 | party.delete() removes the party and its signatures |
| ViewHelpers.CheckSchedule | contracts/views.py:171-194 | gives each outcome exactly when the code gives it: a crash on a missing start date, a format error, a past date, a missing duration; otherwise it accepts exactly the not-past start dates with indefinite or 1..1200 months |
| ViewHelpers.CheckScheduleRefusals | contracts/views.py:172-194 | every refusal is one of the four validation messages |
| ViewHelpers.UpToComma | contracts/views.py:1200 | split(',')[0]: the longest comma-free prefix; the whole string when it has no comma |
| ViewHelpers.GetClientIp | contracts/views.py:1196-1203 | the first X-Forwarded-For entry when the header is non-empty, otherwise REMOTE_ADDR |
| ViewHelpers.ReplaceUnsafe | contracts/views.py:1096 | every character outside [\w\-_.] becomes '_', position by position |
| ViewHelpers.SanitizeFilenameMeaning | contracts/views.py:1096-1097 | the file name is at most 100 characters, all safe, and keeps each safe title character |
| ViewHelpers.SanitizeFilenameIdempotent | contracts/views.py:1096-1097 | sanitising a sanitised name changes nothing |
| ViewHelpers.TrimStart | contracts/views.py:591 | removes exactly the leading whitespace, where whitespace is every character Python's str.isspace() accepts |
| ViewHelpers.TrimEnd | contracts/views.py:591 | removes exactly the trailing whitespace, in the same sense |
| ViewHelpers.StripMeaning | contracts/views.py:591 | strip() is a contiguous slice with only whitespace cut off at either end, and no whitespace left at either end |
| ViewHelpers.StripRemovesSeparators | contracts/views.py:591 | the ASCII information separators and the no-break space are stripped like spaces |
| ViewHelpers.StripIdempotent | contracts/views.py:591 | stripping twice is stripping once |
| ViewHelpers.ResolveUser | contracts/views.py:1336-1350 | the user id picks that user; without an id, the unique user with the e-mail is picked, and nobody when no e-mail is posted (email IS NULL); a malformed id, or several users with the e-mail, fails the lookup |
| Views.NewContract | contracts/views.py:204-217 | a new contract is a draft, editable, not system-approved and not completed |
| Views.UserParty | contracts/views.py:228-232 | a new party of a registered user is pending |
| Views.EnrolParty | contracts/views.py:228-241 | a party and then its signature with the code are appended, or IntegrityError when the user is already a party, with nothing saved |
| Views.SecondPartyPlan | contracts/views.py:244-266 | no second party for a self contract, an empty field or an unknown user; a malformed id crashes; otherwise the named user |
| Views.EnrolCreatorAndSecond | contracts/views.py:227-266 | the creator's party and signature, then the second party's; this fails exactly when the creator names themself or the second-party id is malformed |
| Views.PickTemplate | contracts/views.py:219-225 | an unknown template is ignored, a malformed id crashes, and a known one is attached |
| Views.CreateVisibility | contracts/views.py:196-199 | a self contract is always private; otherwise the posted visibility, private by default |
| Views.CreatedRowMeaning | contracts/views.py:171-217 | a saved contract is an editable draft of the requester, with a start date not in the past and indefinite or 1..1200 months |
| Views.ContractCreate | contracts/views.py:155-266 | refusals and crashes before the save change nothing; otherwise the contract is saved, then a template crash, or the enrolment, with Created exactly when it succeeds |
| Views.RecreateDuration | contracts/views.py:427 | an absent duration is 12 months; an empty or malformed one crashes |
| Views.RecreateStart | contracts/views.py:430-433 | the posted date, today when none is posted, a crash when malformed |
| Views.RecreatedRow | contracts/views.py:420-451 | the new draft takes each posted field or else the original's |
| Views.RecreateSkipsCreateChecks | contracts/views.py:420-451 | recreate saves a public self contract of 0 months, which contract_create refuses |
| Views.DeclinedContractRecreate | contracts/views.py:409-499 | not found, or refused when nothing was declined, with nothing changed; a bad field crashes with nothing changed; otherwise the new contract and its parties are saved, and the original is archived only when the enrolment succeeds |
| Views.SaveRecreated | contracts/views.py:439-496 | the new contract, its enrolment, then the original archived |
| Views.ContractEdit | contracts/views.py:369-391 | the contract changes only when both guards pass; then it gets exactly the posted title, content and visibility, and a missing title or content is a server error |
| Views.ContractDelete | contracts/views.py:525-539 | a deletable own contract goes with everything that cascades from it; a refusal changes nothing |
| Views.RemoveContractParty | contracts/views.py:560-580 | the party goes with its signatures when the removal check passes; otherwise nothing changes |
| Views.ContractDecline | contracts/views.py:584-606 | only the requester's party row changes: it is declined, with the stripped reason and the time |
| Views.IssueSignatureCode | contracts/views.py:663-672 | get_or_create: an existing signature gets the new code and nothing else; otherwise one is created with it |
| Views.WithSignatureRowMeaning | contracts/views.py:633-643 | the signature found or created belongs to the party, and a created one is unsigned and has no code |
| Views.FindOrCreateSignature | contracts/views.py:633-643 | the party's signature exists afterwards, at the index returned |
| Views.SignOrReissue | contracts/views.py:645-672 | on a matching code the signature is signed and completion is tried; otherwise only its code is replaced |
| Views.SignNeverUnsigns | contracts/views.py:630-672 | no signature is unsigned; the only one that can become signed is the requester's party's, and then only on a code match |
| Views.WrongCodeSignsNothing | contracts/views.py:659-672 | a wrong code leaves every is_signed flag as it was |
| Views.ContractSign | contracts/views.py:625-672 | the new signature table; a code match is recorded with the completion check, and a wrong code is refused without touching the contract |
| Views.ContractSignPage | contracts/views.py:662-675 | the GET issues a new code and changes no is_signed flag |
| Views.AfterApproveMeaning | contracts/views.py:703-713 | afterwards the requester has approved; approving again changes nothing; no other approval row changes, and no approval is withdrawn |
| Views.RecordApproval | contracts/views.py:704-713 | reports whether the requester had already approved, in which case nothing changes |
| Views.ContractApprove | contracts/views.py:694-722 | refused on a completed contract with nothing changed; otherwise the approval is recorded, and completion is tried only on a first approval |
| Views.CodeMatchIndex | contracts/views.py:1303-1307 | a match exists exactly when some signature of the requester on the contract has the posted code |
| Views.VerifySignatureCode | contracts/views.py:1296-1320 | no match is refused, several matches crash, a signed match is refused; otherwise only the matching row becomes signed |
| Views.AddContractParty | contracts/views.py:1326-1387 | a found user who is not yet a party is enrolled with a code; an existing party is refused; anyone else becomes a manual party without a signature; a failed lookup crashes |
| Listings.FirstSignatureOf | contracts/views.py:805 | the requester's first signature on the contract, or the requester has none |
| Listings.InvitedMeaning | contracts/views.py:795-816 | every entry is an open invitation of the requester that they have not signed, and every such invitation has its entry |
| Listings.SortNewestFirstMeaning | contracts/views.py:819 | the sorted list is newest first and a permutation of the unsorted one |
| Listings.InvitedTallies | contracts/views.py:822-829 | pending + accepted is the number of entries, and the declined tally is 0 |
| Listings.SortedInvitationsMeaning | contracts/views.py:816-829 | the sorted page has the entries of the loop, newest first, none signed, with its tallies |
| Listings.CollectInvitations | contracts/views.py:801-816 | the loop builds exactly the specified list of invitations |
| Listings.InvitedContracts | contracts/views.py:792-831 | the page is a newest-first permutation of the requester's unsigned open invitations, with pending + accepted = total and declined = 0 |
| Listings.InvitedOn | contracts/context_processors.py:26-29 | the contract has a pending or accepted party of the user |
| Listings.SignedBy | contracts/context_processors.py:30-33 | the user has a signed signature on the contract |
| Listings.ExcludedAsWritten | contracts/context_processors.py:30-33 | some signature of the user and some signed signature exist on the contract, not necessarily the same one |
| Listings.InvitedCountAsWrittenAtMost | contracts/context_processors.py:26-33 | the count as written is never above the intended count |
| Listings.InvitedCountAsWrittenDropsUnsignedInvitee | contracts/context_processors.py:26-33 | an unsigned invitee on a contract the creator signed is counted 0 as written, 1 as intended |
| Listings.CountedInvitationIsShown | contracts/views.py:801-816 | each contract the intended count includes has an invitation the invited page shows |
| Listings.DeclinedReasonSplit | contracts/views.py:855-860 | the declined parties of a contract are those with a reason plus those without |
| Listings.TallySplit | contracts/views.py:849-860 | parties_with_reason + parties_without_reason = total_declined_parties |
| Listings.TallyAtLeastListed | contracts/views.py:838-860 | the declined-party tally is at least the number of contracts listed |
| Listings.TallyParties | contracts/views.py:855-860 | the inner loop counts exactly the contract's declined parties, with and without a reason |
| Listings.DeclinedContracts | contracts/views.py:835-879 | lists exactly the requester's contracts that have a declined party; the three tallies are as specified and add up; the invited count is the intended one |
| ContextProcessors.OtherDeclined | contracts/context_processors.py:19-21 | some declined party of the contract is not the user's own; parties without a user count |
| ContextProcessors.DeclinedCountAtMostListed | contracts/context_processors.py:15-23 | the declined badge never exceeds the number of contracts the declined page lists |
| ContextProcessors.DeclinedCountAtMostCreated | contracts/context_processors.py:15-23 | the declined badge never exceeds the number of contracts the user created |
| Listings.InvitedCountAtMostPartyContracts | contracts/context_processors.py:26-33 | the invited badge never exceeds the number of contracts the user is a party to |
| ContextProcessors.OwnDeclineNotCounted | contracts/context_processors.py:19-21 | a contract whose only declines are the user's own does not count |
| ContextProcessors.ContractCounts | contracts/context_processors.py:5-38 | both counts are 0 for an anonymous user; otherwise the declined loop gives the specified count, and the invited count is the intended one; the declined count is at most the user's own contracts and the invited count at most the contracts the user is a party to |

## Findings

| source | as written | input that shows it | evidently intended | confidence | as-written member | corrected member |
|---|---|---|---|---|---|---|
| contracts/context_processors.py:26-33 | `.exclude(signatures__user=u, signatures__is_signed=True)` spans a multi-valued relation, so Django does not tie the two conditions to the same row. The contract is dropped when u has any signature row and any row on it is signed. The same query appears in contracts/views.py:863-870 and the other invited counts. | contract 1 by user 7; user 7 (accepted) has signed; user 8 (pending) has an unsigned signature row: user 8's count is 0 | count the contracts u is invited to and has not signed personally, as the code's own comment says | not executed; rests on Django's documented exclude() semantics for multi-valued relations | Listings.InvitedCountAsWritten, Listings.InvitedCountAsWrittenDropsUnsignedInvitee | Listings.InvitedCount, Listings.CountedInvitationIsShown |

## Left out

- E-mail sending (send_signature_email, send_contract_invitation_email, send_contract_declined_email), the messages framework, redirects, template rendering and the GET pages other than contract_sign's: these are I/O with no effect on the tables.
- generate_contract_content: it is only text generation. content is stored as posted.
- PDF and JPEG rendering in contract_pdf and contract_image: only the file-name sanitising is modelled.
- safe_text: its Unicode normalisation is not modelled.
- Python's Unicode `\w`: it is approximated as ASCII letters, digits and `_`, plus every non-ASCII character.
- is_authenticated, login_required, and User.get_full_name / display_name: the requester is an id, and display names only feed messages.
- Timestamps other than created_at, completed_at, declined_at, signed_at and approved_at (updated_at, invited_at, joined_at): no modelled behaviour reads them.
- ContractApproval.party: no view sets it, so deleting a party does not cascade to approvals in the model.
- UUID primary keys: they are modelled as increasing natural numbers. Only .first() and ordering rely on key order.
- Listings.DeclinedContracts: it keeps table order rather than order_by('-parties__declined_at'). With distinct() that ordering can repeat a contract once per declined party; the model lists each contract once.
- Listings.InvitedContracts: the ensures state order and permutation, not the stability of list.sort. (SortNewestFirst is a stable insertion, but stability is not proved.)
- Listings.InvitedContracts: the select_related join and get_role_display are not modelled; the entry carries the role itself.
- Views.ContractCreate, Views.ContractEdit, Views.DeclinedContractRecreate, Views.AddContractParty: a posted visibility or role outside the choices (add_contract_party stores any posted role, '' included) cannot be expressed, because the model's types only hold the choices.
- Views.AddContractParty: a manual party with a missing name is stored with the string posted, and one with a missing e-mail with "", since the model's party columns are strings; the shown `models.py` has no such columns, so whether saving None succeeds is not modelled.
- verify_signature_code with a non-POST method answers "invalid request" and changes nothing. It is not a separate member.
- Concurrency and transactions: each view runs alone, and there is no rollback, as in the source.
- The seeding scripts, admin, urls, forms, migrations and the other views (home, contract_detail, my_contracts, signed_contracts, profile, contract_pool, search_users, add_contract_comment): these are outside the lifecycle core.
