# Bank cards: a Dafny model of the card lifecycle service

This project models the card core of a bank-card management backend. Administrators issue cards
to users, block, reactivate and delete them. Users see their own cards and move money between
cards they own. The model covers the card service (`CardServiceImpl`), the card-number masker,
the card status enum, the card entity with its column constraints, and the two request objects
with their validation annotations.

Layout, one module per source file or component:

- `wrappers.dfy`: `Option` (a nullable reference) and `Result` (a value or a raised exception).
- `status.dfy` (`CardStatus`): ACTIVE, BLOCKED, EXPIRED and `isActive`.
- `card_number_masker.dfy` (`CardNumberMasker`): `"**** **** **** "` followed by the last four characters.
- `card.dfy` (`CardEntity`): the card row, its owner reference and its column limits. The limits are
  number length 16, owner name length 100, and a balance of precision 19, scale 2.
- `card_request_dto.dfy` (`CardRequests`), `transfer_request_dto.dfy` (`TransferRequests`): the
  requests, with every field nullable, and validity predicates for their annotations.
- `service_errors.dfy` (`ServiceErrors`): CardNotFound, UserNotFound, AccessDenied,
  TransferNotAllowed (with the reason), InsufficientFunds (card, available, required), and
  ConstraintViolation for a row the table refuses.
- `card_store.dfy` (`CardStore`): the cards table as `map<CardId, Card>`. It states the table's
  constraints, solvency, and the total of all balances, with lemmas on how updates change the total.
- `access_policy.dfy` (`AccessPolicy`): the admin and owner decisions as one pure function.
- `transfer_rules.dfy` (`TransferRules`): the transfer's checks as an ordered list of steps. The
  first failing step names the error. The module also gives the two balance writes and the
  transfer properties.
- `card_service.dfy` (`CardServiceImpl`): the class `CardService`, holding the cards map, the users
  map it only reads, and the next identity value. Each operation is one method.

Money is integer cents. The balance column has scale 2, so this arithmetic is exact. The caller
that the service reads from the security context (`CardServiceImpl.java:34-42`) is an explicit
`Caller(username, isAdmin)` parameter. Every operation is one atomic step on the map.

The transfer checks run in the order the code makes them. The sufficiency check (line 138) comes
before the sign check (line 146). With no negative balance this order has a limited effect, and
the model proves exactly that: a non-positive amount is always refused and never with
InsufficientFunds. A missing card still gives CardNotFound, and the other identity and status
checks still come first. Once the first seven checks pass, the outcome is TransferNotAllowed
with reason NonPositiveAmount.

## Model

| member | source | states |
|---|---|---|
| `CardStatus.ExactlyThreeStatuses` | src/main/java/com/example/bankcards/entity/enums/Status.java:3-6 | every status is one of ACTIVE, BLOCKED, EXPIRED, and there are three |
| `CardStatus.IsActive` | src/main/java/com/example/bankcards/entity/enums/Status.java:8-10 | isActive holds exactly when the status is neither BLOCKED nor EXPIRED |
| `CardStatus.IsActiveOnlyForActive` | src/main/java/com/example/bankcards/entity/enums/Status.java:8-10 | isActive holds for ACTIVE, fails for BLOCKED and EXPIRED, so it holds exactly for ACTIVE |
| `CardNumberMasker.MaskCardNumber` | src/main/java/com/example/bankcards/util/CardNumberMasker.java:10-11 | needs at least four characters; the result is 19 characters: the fixed 15-character prefix of `*` and spaces, then the input's last four |
| `CardNumberMasker.MaskDependsOnlyOnLastFour` | src/main/java/com/example/bankcards/util/CardNumberMasker.java:10-11 | two numbers mask identically if and only if their last four characters agree |
| `CardNumberMasker.MaskIdempotent` | src/main/java/com/example/bankcards/util/CardNumberMasker.java:10-11 | masking a masked number gives it back unchanged |
| `CardNumberMasker.MaskExample` | src/main/java/com/example/bankcards/util/CardNumberMasker.java:10-11 | "1234567890123456" masks to "**** **** **** 3456" |
| `CardEntity.FitsColumns` | src/main/java/com/example/bankcards/entity/Card.java:24-38 | a card with a sixteen-digit number, an owner name of at most 100 characters and a non-negative balance within precision 19 fits its row; a fitting balance stays below 10^19 cents |
| `CardStore.Consistent` | src/main/java/com/example/bankcards/entity/Card.java:24-38 | in a consistent table every row sits under its own id with a balance its column holds, and a card number identifies its row (the unique constraint) |
| `CardRequests.ValidCardRequest` | src/main/java/com/example/bankcards/dto/CardRequestDto.java:15-30 | a request passing every annotation has a number that exactly fills the 16-character column, a non-blank owner name and an initial balance of at least one cent |
| `CardRequests.CardNumberIsNotBlank` | src/main/java/com/example/bankcards/dto/CardRequestDto.java:15-17 | a number matching `\d{16}` is never blank, so the pattern implies @NotBlank |
| `CardRequests.ValidCardRequestGuarantees` | src/main/java/com/example/bankcards/dto/CardRequestDto.java:15-30 | a valid request has a 16-digit number, a non-blank owner name, an expiry date, a user id and a strictly positive initial balance |
| `CardRequests.ValidCardRequestRejects` | src/main/java/com/example/bankcards/dto/CardRequestDto.java:15-30 | a wrong-length number, an all-blank owner name, a non-positive balance or a missing date or user id each make a request invalid |
| `TransferRequests.ValidTransferRequest` | src/main/java/com/example/bankcards/dto/TransferRequestDto.java:12-20 | a valid request carries both card ids and an amount of at least one cent |
| `TransferRequests.ValidTransferRequestExactly` | src/main/java/com/example/bankcards/dto/TransferRequestDto.java:12-20 | a transfer request is valid exactly when it has both card ids and an amount, and the amount is strictly positive |
| `AccessPolicy.Permits` | src/main/java/com/example/bankcards/service/CardServiceImpl.java:72-187 | an admin may do everything; a non-admin may do something only if it is viewing or blocking a card it owns |
| `AccessPolicy.AdminOnlyActions` | src/main/java/com/example/bankcards/service/CardServiceImpl.java:72-179 | listing all, deleting and activating are allowed exactly for admins, whoever owns the card |
| `AccessPolicy.StrangerRefused` | src/main/java/com/example/bankcards/service/CardServiceImpl.java:81-172 | the policy fails closed: a non-admin who does not own the card is refused every action |
| `TransferRules.TransferCheck` | src/main/java/com/example/bankcards/service/CardServiceImpl.java:107-148 | when the checks refuse nothing, both cards exist, belong to the caller, differ and are ACTIVE, and the amount is positive and covered by the source balance |
| `TransferRules.FirstRefusalNone` | src/main/java/com/example/bankcards/service/CardServiceImpl.java:107-148 | a list of checks raises nothing exactly when every check passes |
| `TransferRules.FirstRefusalAt` | src/main/java/com/example/bankcards/service/CardServiceImpl.java:107-148 | when check i fails and all earlier checks pass, check i's error is the outcome |
| `TransferRules.FirstRefusalSome` | src/main/java/com/example/bankcards/service/CardServiceImpl.java:107-148 | every error comes from a failing check whose predecessors all passed |
| `TransferRules.IdentityStepsUnrolled` | src/main/java/com/example/bankcards/service/CardServiceImpl.java:108-126 | the first five checks, in order, are: source exists, target exists, source owned, target owned, distinct ids |
| `TransferRules.BalanceStepsUnrolled` | src/main/java/com/example/bankcards/service/CardServiceImpl.java:128-148 | then come: source ACTIVE, target ACTIVE, balance at least the amount, amount positive, and the balance column holding both new balances |
| `TransferRules.TransferCheckUnrolled` | src/main/java/com/example/bankcards/service/CardServiceImpl.java:107-148 | the whole ordered list equals the code's chain of tests, with each error and what it carries |
| `TransferRules.TransferCheckNoneIff` | src/main/java/com/example/bankcards/service/CardServiceImpl.java:107-148 | a transfer goes through if and only if every check passes |
| `TransferRules.Transferred` | src/main/java/com/example/bankcards/service/CardServiceImpl.java:150-156 | the source loses exactly the amount and the target gains it; their sum is unchanged; nothing else changes, on those two cards or on any other |
| `TransferRules.TransferConservesTotal` | src/main/java/com/example/bankcards/service/CardServiceImpl.java:150-156 | the total of all balances in the store is the same after a transfer |
| `TransferRules.TransferKeepsSolvent` | src/main/java/com/example/bankcards/service/CardServiceImpl.java:137-152 | a transfer that goes through never leaves the source negative, and keeps a store without negative balances that way |
| `TransferRules.TransferKeepsConsistent` | src/main/java/com/example/bankcards/entity/Card.java:24-38 | a transfer that goes through keeps every row within its columns and keeps every card number unique and unchanged |
| `TransferRules.NonPositiveAmountNotAllowed` | src/main/java/com/example/bankcards/service/CardServiceImpl.java:137-148 | if the source balance is not negative, a non-positive amount always fails, never with InsufficientFunds, and with TransferNotAllowed(NonPositiveAmount) once the first seven checks pass; the sufficiency check always passes here |
| `TransferRules.SameCardRefused` | src/main/java/com/example/bankcards/service/CardServiceImpl.java:123-126 | a transfer to the same card always fails: with TransferNotAllowed whenever the card exists, and with reason SameCard when the caller owns it |
| `TransferRules.InactiveCardRefused` | src/main/java/com/example/bankcards/service/CardServiceImpl.java:128-135 | a transfer involving a card that is not ACTIVE always fails, with the same error for every amount |
| `TransferRules.PositiveAmountNeverNonPositive` | src/main/java/com/example/bankcards/dto/TransferRequestDto.java:18-20 | with a positive amount, as a valid request carries, the sign check at line 146 never fires |
| `TransferRules.TransferExample` | src/main/java/com/example/bankcards/service/CardServiceImpl.java:104-157 | with 100.00 and 0.00 on two active cards of the caller, moving 40.00 leaves 60.00 and 40.00; then asking for 1000.00 gives InsufficientFunds(1, 6000, 100000) |
| `CardServiceImpl.ToResponse` | src/main/java/com/example/bankcards/service/CardServiceImpl.java:189-197 | the view copies id, owner name, balance, status and expiry; its number is 19 characters: the 15-character mask prefix, then the card's last four |
| `CardServiceImpl.ResponseHidesLeadingDigits` | src/main/java/com/example/bankcards/service/CardServiceImpl.java:189-197 | two cards that differ only in their numbers give the same view if and only if the last four digits agree |
| `CardServiceImpl.IssuedCard` | src/main/java/com/example/bankcards/service/CardServiceImpl.java:50-56 | the new card takes the request's fields and the found user as owner; its status is ACTIVE and its balance is the initial balance, which is positive |
| `CardServiceImpl.Storable` | src/main/java/com/example/bankcards/service/CardServiceImpl.java:58 | storing a storable card under a new id keeps the table consistent; a card that fits its columns is refused only because its number is already stored |
| `CardServiceImpl.TransferKeepsInvariant` | src/main/java/com/example/bankcards/service/CardServiceImpl.java:150-156 | a transfer that passes its checks keeps the service invariant and the total |
| `CardServiceImpl.CardService.CreateCard` | src/main/java/com/example/bankcards/service/CardServiceImpl.java:46-60 | an unknown user gives UserNotFound and nothing is stored. A refused row gives ConstraintViolation and nothing is stored. Otherwise exactly one card is added, under a new id; the total grows by its initial balance |
| `CardServiceImpl.CardService.GetUserCards` | src/main/java/com/example/bankcards/service/CardServiceImpl.java:64-68 | the result holds exactly the cards whose owner has the caller's name, each as its view; every card listed is one the access policy lets the caller view |
| `CardServiceImpl.CardService.GetAllCards` | src/main/java/com/example/bankcards/service/CardServiceImpl.java:72-77 | a non-admin gets AccessDenied; an admin gets the views of all cards |
| `CardServiceImpl.CardService.GetCardById` | src/main/java/com/example/bankcards/service/CardServiceImpl.java:81-91 | a missing id gives CardNotFound for any caller; a non-admin non-owner gets AccessDenied; otherwise the card's view |
| `CardServiceImpl.CardService.DeleteCard` | src/main/java/com/example/bankcards/service/CardServiceImpl.java:95-100 | a non-admin gets AccessDenied and nothing changes; for an admin the id is removed, with no error if it was absent |
| `CardServiceImpl.CardService.CheckTransfer` | src/main/java/com/example/bankcards/service/CardServiceImpl.java:107-148 | the code's chain of tests, run on the stored cards without changing them, returns exactly the outcome of the ordered check list `TransferCheck`, the balance column's refusal last |
| `CardServiceImpl.CardService.Transfer` | src/main/java/com/example/bankcards/service/CardServiceImpl.java:104-157 | the error is the first failing check's; on success both balances change as `Transferred` says; on any error the store is unchanged; the total is conserved and the invariant kept |
| `CardServiceImpl.CardService.BlockCard` | src/main/java/com/example/bankcards/service/CardServiceImpl.java:161-172 | the lookup comes first, so a missing id gives CardNotFound for any caller. An admin or the owner sets the status to BLOCKED and nothing else changes. Anyone else gets AccessDenied and the store is unchanged |
| `CardServiceImpl.CardService.ActivateCard` | src/main/java/com/example/bankcards/service/CardServiceImpl.java:176-187 | the admin check comes first, so a non-admin gets AccessDenied even for a missing id. For an admin the status becomes ACTIVE from any status, EXPIRED included, and nothing else changes |

The service invariant (`CardServiceImpl.ServiceInvariant`) combines several facts:

- every card sits under its own id and fits its columns (`Card.java:24-38`);
- card numbers are unique (`Card.java:24`) and all have sixteen digits;
- no balance is negative;
- ids lie below the next identity value;
- every card's owner is a stored user (`Card.java:40-42`).

Every mutating method keeps it. The owner reference is required by construction: `Card.owner`
is a `User` value, never absent.

## Left out

- Pagination and sorting: `GetUserCards` and `GetAllCards` return all matching cards as a map
  keyed by id. They do not return a page ordered by id descending, which is library behaviour of
  the repository.
- The security context and JWT handling: replaced by the `Caller` parameter. `isAdmin` is a
  boolean; the model does not scan a list of granted authorities.
- The controller role gates. ADMIN for create, list-all, delete and activate
  (`CardController.java:28`, 48, 69, 92); USER for transfer (`CardController.java:77`). The service
  itself does not check them. So `CreateCard` has no caller, and `Transfer` checks only ownership.
- The service's behaviour on null request fields. `CreateCard` requires a request that passes
  `ValidCardRequest`, and `Transfer` one whose three fields are present. The controller validates
  both with `@Valid` before calling (`CardController.java:30`, 79). The amount's sign is not
  required, because the service checks it itself.
- Amounts with more than two decimals: a `BigDecimal` request amount can carry them, and the store
  would round them to the column's scale. The model's amounts are whole cents.
- `@Transactional` isolation and concurrent transfers: each operation is one atomic step on the
  map, so lost updates between concurrent transfers are not modelled. Rollback is modelled as
  "nothing changes on error".
- Which constraint the table refuses: a duplicate number, an owner name over 100 characters, or a
  balance beyond precision 19 all give `ConstraintViolation`. An identity value consumed by a
  refused insert is not modelled.
- Cards that entered the table without `createCard`: the invariant assumes sixteen-digit numbers.
  A stored number under four characters would make `convertToDto` fail in the masker.
- The entity's zero default balance (`Card.java:38`, `DefaultBalance`) is never observable:
  `createCard` always overwrites it with the initial balance (`CardServiceImpl.java:54`).
- `Status.isActive` is modelled, but the service does not call it; it compares with ACTIVE directly.
- Exception message text: errors carry the card id, the side that failed, the offending status or
  the two amounts.
- `LocalDate` is a plain year, month and day triple, with no calendar validation. Nothing compares
  dates, and nothing sets EXPIRED.
- The user service and the user table's operations: the card service only reads users. Note that
  `deleteUser` checks existence (`UserServiceImpl.java:38-40`) while `deleteCard` does not.
- The response and other data-carrier DTOs, beyond what `ToResponse` covers.
- MaskCardNumber: Dafny strings are sequences of Unicode scalar values, while Java's `length()` and
  `substring` count UTF-16 code units. A surrogate pair among the last four units would be
  counted differently. Stored numbers are sixteen ASCII digits, so the service's results are the same.
