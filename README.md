# Hero and Member registry core, modelled in Dafny

The repository is a Next.js application with two small domains: a hero
roster (heroes with a name and a power level) and a church member registry
(members with personal data, an address, a reception record, a
classification as communicant or non-communicant, and an active or archived
status). Both follow one layered design: aggregates queue domain events,
use cases load an aggregate, change it, save it and drain its events inside
a unit of work, and the unit of work publishes the events on an in-process
bus once the transaction has committed. Server actions sanitise the
`unknown` input the browser sends before calling the use cases. A
read-side query lists members page by page. The members pages hold a form
with its own client-side checks.

This project models that core, one module per source file or component:

- **Value objects.**
  - `Cpf`: the Brazilian taxpayer number, with the mod-11 check digits computed by a loop.
  - `Email` (`value-objects/email`) and `EmailVo` (`value-objects/email.vo`): the address pattern as a string predicate, plus lowercasing and equality.
- **Aggregates.**
  - `HeroEntity.Hero` and `MemberEntity.Member` are classes whose fields and event queues change in place.
  - `Member.Update` keeps the source's field-by-field assignment with a `changed` flag. Because of that, a late validation error leaves the earlier fields assigned.
- **Event pipeline.**
  - `Bus.EventBus`: a name-to-handler-set registry with the `*` wildcard. The unsubscribe closure is modelled as the set it captured.
  - `EventLog.InMemoryEventLog`: a bounded, newest-first log attached to the bus.
  - `HeroActions.ListHeroEventsAction`: the hero-event filter over that log.
- **Transactions and storage.**
  - `UnitOfWork.PrismaUnitOfWork`: snapshot-then-commit over an abstract store of rows (`Storage`). Events are published only after a successful commit, and only when there are some.
  - `Repositories`: the hero and member repositories with their upsert semantics.
- **Use cases and mappers.** `HeroUseCases` and `MemberUseCases`, with `Mappers` for the views.
  - Each use case is a class whose `Execute` is stated against a function describing the whole transaction: the committed store, the outcome (returned or thrown) and the handler deliveries.
- **Server actions.** `Validators` and the register, update, delete and hero actions over a datatype of JavaScript values (`Js`).
- **Member search.** The search action and query (`SearchMembersAction`, `SearchMembersQuery`), with the record-to-view mapper (`MemberRecordMapper`).
- **Members pages.** The form's `validate` and submit gate (`MemberForm`), the form adapters (`MemberFormAdapters`), and the list page's paging and URL handling (`MembersPage`).

Facts that span several layers are proved about the code as written:

- The member form asks for a profession of faith date, but neither form builder sends one. The register action requires one, so every registration built from the form is rejected (`MemberFormAdapters.FormRegistrationAlwaysRejected`).
- An edit form filled from a member's view is never complete (`MemberFormAdapters.EditFormNeedsProfessionOfFaithDate`).
- The register action never forwards a profession, so the entity rejects every communicant registration that reaches it (`RegisterMemberAction.CommunicantRegistrationFails`).
- The update path never changes a stored profession (`MemberUseCases.UpdateKeepsStoredProfession`).
- An unsubscribe callback deletes its event name whenever the set it captured is empty. Run a second time, after the name was emptied and subscribed again, it unregisters the later subscriber (`Bus.StaleUnsubscribeDropsLaterSubscriber`).
- `publish` has no failure isolation: the first failing handler ends the delivery, and the commit stands (`UnitOfWork.Settle`).

## Model

| member | source | states |
|---|---|---|
| Cpf.RemoveNonDigits | src/domain/value-objects/cpf/cpf.ts:28-30 | the result holds only decimal digits and is never longer than the input |
| Cpf.CheckDigit | src/domain/value-objects/cpf/cpf.ts:47-48 | a check digit is below 10; it is 0 exactly when the sum leaves a remainder below 2 mod 11, and otherwise completes the remainder to 11 |
| Cpf.ExtractCheckDigits | src/domain/value-objects/cpf/cpf.ts:51-53 | `slice(-2)` is the last two characters, the rest of the string being what precedes them |
| Cpf.CalculateDigit | src/domain/value-objects/cpf/cpf.ts:40-49 | the loop with the post-decremented factor yields the check digit of the weighted digit sum |
| Cpf.ValidateCpf | src/domain/value-objects/cpf/cpf.ts:18-26 | the method's answer is the validity predicate: eleven digits, not all equal, both check digits matching |
| Cpf.NewCpf | src/domain/value-objects/cpf/cpf.ts:9-12 | the constructor succeeds exactly on a valid number, stores its digits, and otherwise throws `INVALID_CPF` |
| Cpf.RemoveNonDigitsOfDigits | src/domain/value-objects/cpf/cpf.ts:11 | digits pass through the digit filter unchanged |
| Cpf.StoredValueRevalidates | src/domain/value-objects/cpf/cpf.ts:9-12 | the stored digits of an accepted number are themselves accepted, and filtering them again changes nothing |
| Cpf.CheckDigitsWeights | src/domain/value-objects/cpf/cpf.ts:22-23 | the first check digit weighs the first nine digits 10 down to 2, the second the first ten 11 down to 2; the factor stops later digits |
| Cpf.ValidIffCheckDigitsMatch | src/domain/value-objects/cpf/cpf.ts:18-26 | a number is valid if and only if its digits are eleven, not all equal, and digits 10 and 11 are the two computed check digits |
| Cpf.WrongLengthRejected | src/domain/value-objects/cpf/cpf.ts:32-34 | any number without exactly eleven digits is rejected |
| Cpf.HomogeneousRejected | src/domain/value-objects/cpf/cpf.ts:36-38 | eleven equal digits are rejected |
| Cpf.AcceptedEndingInZero | src/domain/value-objects/cpf/cpf.spec.ts:9-12 | `99048058490` is accepted |
| Cpf.AcceptedDefault | src/domain/value-objects/cpf/cpf.ts:4-9 | the default argument `91609085809` is accepted |
| Cpf.SeparatorIgnored | src/domain/value-objects/cpf/cpf.ts:19 | a non-digit separator inserted anywhere changes neither the stored digits nor the verdict |
| Cpf.FormattingIgnored | src/domain/value-objects/cpf/cpf.ts:19 | the dots and the dash of a number written `000.000.000-00` are dropped: the stored digits and the verdict are those of the bare digits |
| Cpf.DigitsAccepted | src/domain/value-objects/cpf/cpf.spec.ts:4-7 | the digits `03377749276` are accepted |
| Cpf.AcceptedFormattedOf | src/domain/value-objects/cpf/cpf.spec.ts:47-51 | the formatted number `033.777.492-76` is accepted and its stored value is `03377749276` |
| Cpf.FormattedAccepted | src/domain/value-objects/cpf/cpf.spec.ts:47-51 | `new Cpf('033.777.492-76')` succeeds and its value is `03377749276` |
| Cpf.DigitsRejected | src/domain/value-objects/cpf/cpf.spec.ts:19-22 | the digits `45654378900` are rejected (their first check digit should be 9) |
| Cpf.RejectedFormattedOf | src/domain/value-objects/cpf/cpf.spec.ts:19-22 | the formatted number `456.543.789-00` is rejected |
| Cpf.FormattedRejected | src/domain/value-objects/cpf/cpf.spec.ts:19-22 | `new Cpf('456.543.789-00')` throws `INVALID_CPF` |
| Email.NewEmail | src/domain/value-objects/email/email.ts:7-10 | the constructor succeeds exactly when the raw text matches `^[^\s@]+@[^\s@]+\.[^\s@]+$`, stores it lowercased, and otherwise throws `Invalid email` |
| Email.AcceptedShape | src/domain/value-objects/email/email.ts:5 | an accepted address has exactly one '@' and no white space |
| Email.MatchesIff | src/domain/value-objects/email/email.ts:5 | the pattern matches if and only if there is no white space, a single '@' that is not first, and a '.' strictly inside the part after it |
| Email.RunsMatch | src/domain/value-objects/email/email.ts:5 | any three runs without white space or '@' joined as `a@b.c` match |
| Email.NoAtRejected | src/domain/value-objects/email/email.ts:5 | without an '@' nothing matches |
| Email.NoInnerDotRejected | src/domain/value-objects/email/email.ts:5 | without a '.' strictly inside the domain nothing matches |
| Email.LowerKeepsMatch | src/domain/value-objects/email/email.ts:5 | lowercasing does not change whether the pattern matches |
| Email.CaseInsensitive | src/domain/value-objects/email/email.ts:7-10 | addresses that differ only in letter case construct the same value |
| Email.PlainAddressMatches | src/domain/value-objects/email/email.spec.ts:5-8 | `test@example.com` matches |
| Email.RejectsWithoutAt | src/domain/value-objects/email/email.spec.ts:16 | `invalid-email` is rejected |
| Email.RejectsWithoutDot | src/domain/value-objects/email/email.spec.ts:17 | `test@invalid` is rejected |
| Email.RejectsEmptyHost | src/domain/value-objects/email/email.spec.ts:18 | `test@.com` is rejected |
| EmailVo.Create | src/domain/value-objects/email.vo.ts:10-15 | `create` succeeds exactly on an address the pattern accepts, stores it lowercased, and otherwise throws `InvalidOperationException` with `INVALID_RAW` |
| EmailVo.SameAsEmail | src/domain/value-objects/email.vo.ts:6-15 | both email value objects accept the same addresses and store the same text; they differ in the exception class |
| EmailVo.EqualsIffSameLowercase | src/domain/value-objects/email.vo.ts:22-25 | two created addresses are `equals` if and only if they agree after lowercasing |
| EmailVo.EqualsIsEquivalence | src/domain/value-objects/email.vo.ts:22-25 | `equals` is reflexive, symmetric and transitive |
| EmailVo.CreateOfToString | src/domain/value-objects/email.vo.ts:17-20 | creating from `toString` of a created address gives the same address back |
| Dates.ToIsoString | src/shared/mappers/member.mapper.ts:26-29 | `toISOString` throws `RangeError: Invalid time value` exactly on an invalid date or one outside the time range |
| Dates.DateInputIsIsoPrefix | src/app/members/_components/member-form-adapters.ts:7-15 | for a four-digit year, the `YYYY-MM-DD` date-input value is the first ten characters of the ISO string |
| Dates.IsoLength | src/shared/mappers/member.mapper.ts:26 | for years 0 to 9999 the ISO string has 24 characters |
| Dates.IsoOfTime | src/shared/mappers/member.mapper.ts:26-29 | the ISO string is the date, then `T` right after it, and it ends in `Z` (it is always in UTC) |
| Dates.CivilFromDays | src/app/members/_components/member-form-adapters.ts:11-13 | the UTC month of a day count is between 1 and 12 and its day of month between 1 and 31 |
| Js.ParseIntOfDecimal | src/infrastructure/actions/members/search-members.action.ts:47-51 | `parseInt` reads back any natural number written in decimal |
| Js.ParseIntNaN | src/infrastructure/actions/members/search-members.action.ts:47-51 | a string that starts with no sign, digit or space gives NaN |
| Js.ParseInt | src/infrastructure/actions/members/search-members.action.ts:48 | the empty string gives NaN; a string starting with a digit gives a non-negative number; a negative result comes only from a leading `-` after the white space |
| Text.TrimIdempotent | src/infrastructure/actions/members/validators.ts:42-47 | trimming twice is trimming once |
| Text.TrimmedHasNoOuterSpace | src/infrastructure/actions/members/validators.ts:42-47 | a trimmed text neither starts nor ends with white space |
| Text.ToLowerIdempotent | src/domain/value-objects/email/email.ts:9 | lowercasing twice is lowercasing once |
| Text.Trim | src/infrastructure/actions/members/validators.ts:42-47 | trimming never lengthens a string, and a string of white space trims to the empty string |
| Text.ToLower | src/domain/value-objects/email/email.ts:9 | lowercasing keeps the length and maps each character on its own |
| Text.Utf16Length | src/domain/entities/hero/hero.entity.ts:48-51 | JavaScript's `.length` counts UTF-16 code units: between the number of characters and twice it, and equal to it exactly when no character is astral |
| Text.Utf16LengthConcat | src/domain/entities/hero/hero.entity.ts:48-51 | the code-unit length of a concatenation is the sum of the lengths |
| Text.Utf16AtLeastTwo | src/domain/entities/hero/hero.entity.ts:48-51 | a string has at least two code units exactly when it has two characters or is one astral character |
| Text.NatToString | src/app/members/page.tsx:107-113 | `String(n)` is a non-empty digit string without a leading zero whose decimal value is `n` |
| Mappers.HeroToView | src/shared/mappers/hero.mapper.ts:6-16 | the view fails with `Invalid time value` exactly when the creation time is out of range, and otherwise carries the snapshot's fields and the ISO creation time |
| Mappers.MemberToView | src/shared/mappers/member.mapper.ts:5-39 | the view fails with `Invalid time value` exactly when one of the three dates does not render; otherwise it carries the fields, the enum names and the ISO dates |
| Mappers.MemberViewIgnoresLiteracy | src/shared/mappers/member.mapper.ts:7-38 | the view does not depend on `literacy`, which it does not carry |
| HeroEntity.SanitizeNameStable | src/domain/entities/hero/hero.entity.ts:43-51 | sanitising is idempotent, validity does not change under it, and a sanitised name has no outer white space |
| HeroEntity.AssertValidName | src/domain/entities/hero/hero.entity.ts:53-57 | the name is accepted exactly when its trimmed form has a `.length` of at least two UTF-16 code units, yielding that trimmed form; otherwise it throws `INVALID_NAME` |
| HeroEntity.AstralNameValid | src/domain/entities/hero/hero.entity.ts:48-57 | a single emoji, two code units long, is a valid name; a single letter is not |
| HeroEntity.Hero.constructor | src/domain/entities/hero/hero.entity.ts:16-22 | a hero holds the snapshot's fields and no events |
| HeroEntity.Hero.Rehydrate | src/domain/entities/hero/hero.entity.ts:38-41 | a rehydrated hero is new, holds the snapshot, and has no events |
| HeroEntity.Hero.Create | src/domain/entities/hero/hero.entity.ts:24-36 | creation fails exactly on an invalid name (under two UTF-16 code units once trimmed); otherwise the new hero has the trimmed name, power 1, is alive, was created now, and carries one `HeroCreated` |
| HeroEntity.Hero.Rename | src/domain/entities/hero/hero.entity.ts:59-65 | an invalid name (under two UTF-16 code units once trimmed) throws and changes nothing; the same trimmed name changes nothing; otherwise the name is replaced and one `HeroRenamed` is added |
| HeroEntity.Hero.LevelUp | src/domain/entities/hero/hero.entity.ts:67-71 | the power grows by one and a `HeroLeveledUp` with the new power is added; nothing else changes |
| HeroEntity.Hero.Emit | src/domain/entities/hero/hero.entity.ts:84-86 | the event is appended to the pending events |
| HeroEntity.Hero.PullEvents | src/domain/entities/hero/hero.entity.ts:88-92 | the pending events are returned in order and cleared |
| Validators.EnsureNonEmptyString | src/infrastructure/actions/members/validators.ts:37-48 | only a string that is not blank passes, yielding its trimmed text; anything else throws the given message |
| Validators.NonEmptyStringIsNormal | src/infrastructure/actions/members/validators.ts:37-48 | an accepted text is trimmed and non-empty, and checking it again accepts it unchanged |
| Validators.NormalTextAccepted | src/infrastructure/actions/members/validators.ts:37-48 | a trimmed non-empty text passes unchanged |
| Validators.TrimmedText | src/infrastructure/actions/members/validators.ts:50-62 | `toNullableString`/`toOptionalString`: a text is present exactly for a non-blank string, and is then the trimmed string |
| Validators.TrimmedTextIsOptionalNonEmpty | src/infrastructure/actions/members/validators.ts:174-185 | the optional reading is absent exactly where the required one throws, and agrees with it otherwise |
| Validators.TrimmedTextIdempotent | src/infrastructure/actions/members/validators.ts:174-179 | sanitising a sanitised text changes nothing |
| Validators.ParseBoolean | src/infrastructure/actions/members/validators.ts:64-77 | a boolean passes; the numbers 1 and 0 and the words true/1/false/0 (trimmed, in any case) are read; everything else throws the message |
| Validators.ParseBooleanNormalises | src/infrastructure/actions/members/validators.ts:66-70 | a string is read as its trimmed, lowercased form |
| Validators.ParseBooleanOfRendering | src/infrastructure/actions/members/validators.ts:64-77 | every rendering of a boolean (word, digit or number) reads back as that boolean |
| Validators.ParseOptionalBoolean | src/infrastructure/actions/members/validators.ts:79-82 | undefined, null and "" are absent; anything else must parse as a boolean or throws `Value must be a boolean.` |
| Validators.BlankStringIsNotAbsent | src/infrastructure/actions/members/validators.ts:79-82 | a blank string other than "" is not absent and is rejected |
| Validators.ParseDate | src/infrastructure/actions/members/validators.ts:84-106 | a valid Date passes unchanged, a non-blank string is parsed after trimming and must be valid, and everything else throws the message |
| Validators.ParseOptionalDate | src/infrastructure/actions/members/validators.ts:108-111 | undefined, null and "" are absent; anything else is parsed as a required date |
| Validators.ValidDatePassesThrough | src/infrastructure/actions/members/validators.ts:85-90 | a valid Date object is returned as is, required or optional |
| Validators.EnsureMemberSex | src/infrastructure/actions/members/validators.ts:113-119 | exactly the trimmed words `male` and `female` pass; a blank or non-string throws the required message, another word the invalid message |
| Validators.EnsureSexOfName | src/infrastructure/actions/members/validators.ts:113-119 | every sex's name passes as that sex |
| Validators.EnsureMemberMaritalStatus | src/infrastructure/actions/members/validators.ts:121-127 | exactly the four trimmed status words pass, with the required and invalid messages otherwise |
| Validators.EnsureMaritalStatusOfName | src/infrastructure/actions/members/validators.ts:121-127 | every marital status's name passes as that status |
| Validators.EnsureMemberReceptionMode | src/infrastructure/actions/members/validators.ts:129-135 | exactly the three trimmed mode words pass, with the required and invalid messages otherwise |
| Validators.EnsureReceptionModeOfName | src/infrastructure/actions/members/validators.ts:129-135 | every reception mode's name passes as that mode |
| Validators.EnsureMemberClassification | src/infrastructure/actions/members/validators.ts:137-143 | exactly `communicant` and `non-communicant` pass, after trimming; anything else throws `INVALID_CLASSIFICATION` |
| Validators.ClassificationChecksAgree | src/infrastructure/actions/members/validators.ts:137-143 | on a trimmed text the action's check and the entity's check accept the same values, give the same classification, and fail with the same message |
| Validators.EnsureMemberId | src/infrastructure/actions/members/validators.ts:145-147 | an id is a non-blank string, trimmed; otherwise `Member id is required.` |
| Validators.BuildMemberAddress | src/infrastructure/actions/members/validators.ts:149-163 | an address needs an object with a non-blank street and city, checked in that order with their own messages; the street and city are the trimmed inputs, and number, district, state, zip and complement are `toOptionalString` of the inputs |
| Validators.NormalAddressBuilt | src/infrastructure/actions/members/validators.ts:154-162 | an address so built has trimmed required parts and sanitised optional ones |
| Validators.AddressRoundTrip | src/infrastructure/actions/members/validators.ts:149-163 | a sanitised address sent as a plain object is rebuilt unchanged |
| Validators.AddressOfParts | src/infrastructure/actions/members/validators.ts:149-163 | any object whose parts are those of a sanitised address builds that address |
| Validators.BuildMemberReception | src/infrastructure/actions/members/validators.ts:165-172 | a reception needs an object with a valid date, a known mode and a non-blank location, checked in that order, each failure with its own message (`LOCATION_REQUIRED` for the location); the date is `parseDate`'s reading, the mode the named mode and the location the trimmed input |
| MemberEntity.AssertValidFullName | src/domain/entities/member/member.entity.ts:196-208 | a full name is accepted exactly when its trimmed form has a `.length` of at least two UTF-16 code units, yielding that form; otherwise it throws `INVALID_FULL_NAME` |
| MemberEntity.AstralFullNameValid | src/domain/entities/member/member.entity.ts:200-208 | a single emoji is a valid full name; a single letter throws `INVALID_FULL_NAME` |
| MemberEntity.AssertValidClassification | src/domain/entities/member/member.entity.ts:210-213 | exactly `communicant` and `non-communicant` are accepted, untrimmed; otherwise it throws `INVALID_CLASSIFICATION` |
| MemberEntity.AssertValidDate | src/domain/entities/member/member.entity.ts:215-220 | a date passes unchanged exactly when it is valid; otherwise it throws the given code |
| MemberEntity.MissingFieldsAre | src/domain/entities/member/member.entity.ts:144-157 | of the required list, only the profession, celebrant, place of birth and religious background can be missing (the others are typed values that are never blank) |
| MemberEntity.CreateAccepts | src/domain/entities/member/member.entity.ts:138-164 | creation is accepted if and only if the name (at least two UTF-16 code units once trimmed) and classification are valid, the birth date is valid, and a communicant has every admission field and a valid reception date |
| MemberEntity.CreateRejects | src/domain/entities/member/member.entity.ts:138-164 | the checks run in order: name, classification, birth date, missing communicant fields (including the address's city and street), reception date, each with its own code |
| MemberEntity.CreateError | src/domain/entities/member/member.entity.ts:138-164 | every error `create` throws is an `InvalidOperationException` with one of the five member error codes; when none is thrown the name and birth date are valid |
| MemberEntity.UpdateWithNoChanges | src/domain/entities/member/member.entity.ts:222-251 | an update without properties changes nothing and reports no change |
| MemberEntity.UpdateKeepsIdentity | src/domain/entities/member/member.entity.ts:222-251 | an update never touches the id, the creation time, the status or the classification |
| MemberEntity.UpdateErrors | src/domain/entities/member/member.entity.ts:222-251 | an update throws exactly when the given name, birth date or reception date is invalid; an invalid name throws `INVALID_FULL_NAME` |
| MemberEntity.UpdateRejectedBirthDateKeepsEarlierAssignments | src/domain/entities/member/member.entity.ts:224-234 | an invalid birth date throws after the name and contacts have already been assigned, and before anything later |
| MemberEntity.UpdateAddressAlwaysChanges | src/domain/entities/member/member.entity.ts:240-246 | a given address or reception counts as a change even when equal to the stored one |
| MemberEntity.UpdateEstablishesValues | src/domain/entities/member/member.entity.ts:222-251 | after an accepted update every given property holds its given value |
| MemberEntity.UpdateOfHeldValues | src/domain/entities/member/member.entity.ts:222-251 | updating a member that already holds every given value changes nothing, and reports a change only for an address or reception |
| MemberEntity.UpdateReplay | src/domain/entities/member/member.entity.ts:222-251 | applying an accepted update twice is applying it once; the second time reports a change only for an address or reception |
| MemberEntity.ApplyUpdate | src/domain/entities/member/member.entity.ts:222-251 | every error `update` throws is an `InvalidOperationException` for the name, the birth date or the reception date; an accepted update holds the given reception and celebrant; what a general update keeps and when it reports a change are stated by `UpdateFrame` and `UpdateChangedIff` |
| MemberEntity.UpdateFrame | src/domain/entities/member/member.entity.ts:222-250 | every property the update leaves undefined keeps its value, whether the update succeeds or throws part-way |
| MemberEntity.UpdateKeepsUndefinedContact | src/domain/entities/member/member.entity.ts:224-231 | an undefined name, email, phone or cpf is kept |
| MemberEntity.UpdateKeepsUndefinedBirth | src/domain/entities/member/member.entity.ts:232-237 | an undefined birth date, place of birth or sex is kept |
| MemberEntity.UpdateKeepsUndefinedBackground | src/domain/entities/member/member.entity.ts:238-240 | an undefined religious background, marital status or profession is kept |
| MemberEntity.UpdateKeepsUndefinedAddress | src/domain/entities/member/member.entity.ts:241-243 | an undefined address, literacy or baptism flag is kept |
| MemberEntity.UpdateKeepsUndefinedReception | src/domain/entities/member/member.entity.ts:244-248 | an undefined reception or celebrant is kept |
| MemberEntity.UpdateChangedIff | src/domain/entities/member/member.entity.ts:222-250 | an accepted update reports a change exactly when some given value differs from the current one (the name after trimming, the birth date by its time), or an address or a reception is given |
| MemberEntity.Member.constructor | src/domain/entities/member/member.entity.ts:116-136 | a member holds the snapshot's fields and no events |
| MemberEntity.Member.Rehydrate | src/domain/entities/member/member.entity.ts:192-194 | a rehydrated member is new, holds the snapshot and has no events |
| MemberEntity.Member.Create | src/domain/entities/member/member.entity.ts:138-190 | creation fails exactly when a check fails, with its code (the name check counting UTF-16 code units); otherwise the new member is active, holds the validated props and the current time, and carries one `MemberRegistered` |
| MemberEntity.Member.Update | src/domain/entities/member/member.entity.ts:222-251 | the new state and the error are those of `ApplyUpdate`, and one `MemberUpdated` is added exactly when the update succeeds and `ApplyUpdate` reports a change; by `UpdateFrame` and `UpdateChangedIff`, undefined properties are kept and the event is raised exactly when a given value differs or an address or reception is given |
| MemberEntity.Member.AssignName | src/domain/entities/member/member.entity.ts:224-227 | the name stage: the trimmed name is assigned, a change when it differs |
| MemberEntity.Member.AssignContact | src/domain/entities/member/member.entity.ts:228-230 | the contact stage: a given email, phone or cpf (null included) is assigned, a change when it differs |
| MemberEntity.Member.AssignBirth | src/domain/entities/member/member.entity.ts:231-236 | the birth stage: the birth date is compared by time; place of birth and sex are assigned |
| MemberEntity.Member.AssignBackground | src/domain/entities/member/member.entity.ts:237-239 | the background stage: religious background, marital status and profession |
| MemberEntity.Member.AssignAddress | src/domain/entities/member/member.entity.ts:240-242 | the address stage: a given address is always a change; the two flags change when they differ |
| MemberEntity.Member.AssignReception | src/domain/entities/member/member.entity.ts:243-247 | the reception stage: a given reception is always a change; the celebrant changes when it differs |
| MemberEntity.Member.ChangeClassification | src/domain/entities/member/member.entity.ts:253-258 | an invalid classification throws and changes nothing; the current one changes nothing; a new one is stored and one `MemberClassificationChanged` is added |
| MemberEntity.Member.Archive | src/domain/entities/member/member.entity.ts:260-264 | the status becomes archived, with one `MemberArchived` unless it already was |
| MemberEntity.Member.Restore | src/domain/entities/member/member.entity.ts:266-270 | the status becomes active, with one `MemberRestored` unless it already was |
| MemberEntity.Member.Delete | src/domain/entities/member/member.entity.ts:272-275 | one `MemberDeleted` is added and nothing else changes |
| MemberEntity.Member.Emit | src/domain/entities/member/member.entity.ts:301-303 | the event is appended to the pending events |
| MemberEntity.Member.PullEvents | src/domain/entities/member/member.entity.ts:305-309 | the pending events are returned in order and cleared |
| Bus.Added | src/infrastructure/events/event-bus.ts:11 | `Set.add`: the handler is in the set afterwards, nothing else is added, and no handler appears twice |
| Bus.Removed | src/infrastructure/events/event-bus.ts:14 | `Set.delete`: exactly the handler is gone and the rest keep their order |
| Bus.SubscribedValid | src/infrastructure/events/event-bus.ts:9-20 | subscribing keeps the bus well formed, and the set the returned callback captures stays known |
| Bus.UnsubscribedValid | src/infrastructure/events/event-bus.ts:13-18 | running an unsubscribe callback keeps the bus well formed and forgets no set |
| Bus.SubscribeRegisters | src/infrastructure/events/event-bus.ts:9-12 | subscribing adds the handler to its event's listeners and leaves every other event's listeners as they were |
| Bus.SubscribeTwiceIsOnce | src/infrastructure/events/event-bus.ts:10-12 | subscribing the same handler twice to the same event is subscribing it once |
| Bus.UnsubscribeTwiceIsOnce | src/infrastructure/events/event-bus.ts:13-18 | calling the same unsubscribe callback twice is calling it once |
| Bus.RemovedAbsent | src/infrastructure/events/event-bus.ts:14 | deleting a handler that is not there changes nothing |
| Bus.RemovedAdded | src/infrastructure/events/event-bus.ts:11-14 | deleting a handler just added to a set that lacked it restores the set |
| Bus.SubscribeThenUnsubscribe | src/infrastructure/events/event-bus.ts:9-20 | subscribing a new handler and calling its callback restores every other event's listeners, and drops the event's entry exactly when it had no other listener |
| Bus.StaleUnsubscribeDropsLaterSubscriber | src/infrastructure/events/event-bus.ts:9-18 | after a callback has emptied its set and the name was dropped, a later subscriber gets a fresh set; running the old callback again deletes the name, so that later subscriber is no longer registered |
| Bus.DeliveriesConcat | src/infrastructure/events/event-bus.ts:28-36 | publishing two batches in a row delivers what publishing each batch delivers, in order |
| Bus.CalledTwiceWhenAlsoWildcard | src/infrastructure/events/event-bus.ts:29-32 | a handler subscribed to an event and to the wildcard is called twice for that event, first among the event's listeners and then among the wildcard's |
| Bus.PublishedTrace | src/infrastructure/events/event-bus.ts:27-37 | what a publish delivers is a prefix of the fan-out: all of it when no handler throws, otherwise up to and including the first handler that throws |
| Bus.PublishedTraceOf | src/infrastructure/events/event-bus.ts:27-37 | any trace that stops at the first throwing handler is that prefix, and the publish throws exactly when some delivery fails |
| Bus.EventBus.constructor | src/infrastructure/events/event-bus.ts:7 | a new bus has no handlers |
| Bus.EventBus.Subscribe | src/infrastructure/events/event-bus.ts:9-20 | the bus state becomes the subscribed state, and the callback holds the set the handler was added to |
| Bus.EventBus.SubscribeToAll | src/infrastructure/events/event-bus.ts:22-25 | subscribing to all is subscribing to the wildcard name `*` |
| Bus.EventBus.Unsubscribe | src/infrastructure/events/event-bus.ts:13-18 | the callback deletes the handler from its captured set and drops the event's entry when that set is empty |
| Bus.EventBus.Publish | src/infrastructure/events/event-bus.ts:27-37 | events are delivered in order, each to its own listeners and then the wildcard's; the trace is the whole fan-out, or stops at the first handler that throws, which rethrows |
| Bus.EventBus.Notify | src/infrastructure/events/event-bus.ts:28-35 | one event is delivered to the listeners snapshotted before the loop, stopping at the first handler that throws |
| EventLog.PlainPayload | src/infrastructure/events/in-memory-event-log.ts:21 | a nullish payload becomes `{}`; any other payload is kept |
| EventLog.ExtractAggregateId | src/infrastructure/events/in-memory-event-log.ts:53-60 | the aggregate id is the payload's own `heroId` when that is a string, and absent otherwise |
| EventLog.ToLogged | src/infrastructure/events/in-memory-event-log.ts:20-28 | a logged event carries the id, name, plain payload and extracted aggregate id; it fails exactly when the time does not render |
| EventLog.SliceEnd | src/infrastructure/events/in-memory-event-log.ts:29 | the end index of `slice(0, end)`: never beyond the length, and a non-negative end is capped at it |
| EventLog.PrependedBounded | src/infrastructure/events/in-memory-event-log.ts:29 | an append puts the new entry first and keeps the newest older entries, at most `maxSize` in all |
| EventLog.ListedTakesNewest | src/infrastructure/events/in-memory-event-log.ts:32-35 | a non-negative limit lists the newest `limit` entries, or all of them |
| EventLog.ListedNegative | src/infrastructure/events/in-memory-event-log.ts:32-35 | a negative limit drops that many entries from the oldest end, as `slice` does |
| EventLog.LoggedOfFanout | src/infrastructure/events/in-memory-event-log.ts:41-46 | when the log is attached only to the wildcard, one published event is logged once |
| EventLog.LogRecordsEveryEvent | src/infrastructure/events/in-memory-event-log.ts:16-30 | an attached log records every published event once and in order, bounded by `maxSize` |
| EventLog.InMemoryEventLog.constructor | src/infrastructure/events/in-memory-event-log.ts:16-18 | a log made without a bus is empty and unattached, with `maxSize` 100 by default |
| EventLog.InMemoryEventLog.Attached | src/infrastructure/events/in-memory-event-log.ts:16-18 | a log made with a bus is empty and subscribed to all of that bus's events |
| EventLog.InMemoryEventLog.Append | src/infrastructure/events/in-memory-event-log.ts:20-30 | an event whose time renders is prepended within the bound; otherwise `toISOString` throws and the log is unchanged |
| EventLog.InMemoryEventLog.Receive | src/infrastructure/events/in-memory-event-log.ts:41-46 | the log handler appends every delivery addressed to it, stopping at the first that throws |
| EventLog.InMemoryEventLog.List | src/infrastructure/events/in-memory-event-log.ts:32-35 | the listed entries are the newest `limit` (20 by default) |
| EventLog.InMemoryEventLog.Clear | src/infrastructure/events/in-memory-event-log.ts:37-39 | the log is emptied |
| EventLog.InMemoryEventLog.Attach | src/infrastructure/events/in-memory-event-log.ts:41-46 | attaching first runs the previous unsubscribe callback, then subscribes a new handler to all events; the entries stay |
| EventLog.InMemoryEventLog.Detach | src/infrastructure/events/in-memory-event-log.ts:48-51 | detaching runs the unsubscribe callback, if any, and forgets it |
| Storage.UpsertHero | src/infrastructure/repositories/prisma/hero.repository.prisma.ts:34-48 | an upsert writes the hero's row, adds its id if new, and leaves every other hero and all members alone |
| Storage.SavedHeroReadsBack | src/infrastructure/repositories/prisma/hero.repository.prisma.ts:31-48 | a saved hero reads back as saved, except that an existing row keeps its creation time (the update part omits it) |
| Storage.ClassificationRoundTrip | src/infrastructure/repositories/prisma/member.repository.prisma.ts:9-17 | the domain and database classifications convert to each other and back unchanged |
| Storage.UpsertMember | src/infrastructure/repositories/prisma/member.repository.prisma.ts:39-43 | an upsert writes the member's row, adds its id if new, and leaves every other member and all heroes alone |
| Storage.CreatedMemberReadsBack | src/infrastructure/repositories/prisma/member.repository.prisma.ts:52-119 | the row `mapToCreate` writes maps back through `mapToDomain` to the same snapshot |
| Storage.SavedMemberReadsBack | src/infrastructure/repositories/prisma/member.repository.prisma.ts:36-46 | a saved member reads back as saved, except that an existing row keeps its creation time, and its profession when the member has none |
| Storage.DeleteMember | src/infrastructure/repositories/prisma/member.repository.prisma.ts:48-50 | a delete removes exactly the member's row, and fails when there is none |
| Storage.ReclassifiedRow | src/infrastructure/repositories/prisma/member.repository.prisma.ts:121-149 | saving a loaded member with only a new classification rewrites the classification column of its row and nothing else |
| Storage.HeroFromRecord | src/infrastructure/repositories/prisma/hero.repository.prisma.ts:22-28 | rehydrating a hero keeps the row's id and loses none of its columns |
| Storage.ToPrismaClassification | src/infrastructure/repositories/prisma/member.repository.prisma.ts:14-17 | only `communicant` becomes the database's `communicant`, and converting back gives the domain value |
| Storage.ToDomainClassification | src/infrastructure/repositories/prisma/member.repository.prisma.ts:9-12 | only the database's `communicant` becomes `communicant`; anything else is `non-communicant` |
| Storage.MemberToCreate | src/infrastructure/repositories/prisma/member.repository.prisma.ts:88-119 | a new row has the snapshot's id and creation time, a null profile, the database spelling of the classification, and maps back to the same snapshot |
| Storage.MemberToUpdate | src/infrastructure/repositories/prisma/member.repository.prisma.ts:121-149 | an update keeps the row's id, profile and creation time, writes the classification and status, keeps the stored profession when the snapshot's is undefined, and otherwise reads back as the snapshot |
| Storage.MemberFromRecord | src/infrastructure/repositories/prisma/member.repository.prisma.ts:52-86 | rehydrating a member keeps its id, creation time, profession, status, contacts, street, city and reception, and converts the classification |
| UnitOfWork.Settle | src/infrastructure/uow/prisma-unit-of-work.ts:22-34 | a work that throws rolls back and publishes nothing; a work that finishes commits, then publishes its collected events; a throwing handler stops the publish and the call rethrows after the commit |
| UnitOfWork.NoEventsNoDeliveries | src/infrastructure/uow/prisma-unit-of-work.ts:27-32 | a work with no events (or `events` left out) commits and publishes nothing |
| UnitOfWork.PrismaUnitOfWork.constructor | src/infrastructure/uow/prisma-unit-of-work.ts:12-15 | a new unit of work holds the database and the bus, with no transaction open |
| UnitOfWork.PrismaUnitOfWork.Write | src/infrastructure/uow/prisma-unit-of-work.ts:17-20 | a write goes to the open transaction when there is one, and straight to the database otherwise |
| UnitOfWork.PrismaUnitOfWork.Begin | src/infrastructure/uow/prisma-unit-of-work.ts:24-25 | opening a transaction binds the ambient client to a copy of the committed state |
| UnitOfWork.PrismaUnitOfWork.Complete | src/infrastructure/uow/prisma-unit-of-work.ts:24-33 | closing the transaction settles it as the settlement function says, and unbinds the ambient client |
| Repositories.PrismaHeroRepository.constructor | src/infrastructure/repositories/prisma/hero.repository.prisma.ts:7 | the repository works through the unit of work's current client |
| Repositories.PrismaHeroRepository.FindById | src/infrastructure/repositories/prisma/hero.repository.prisma.ts:13-29 | a stored hero is rehydrated from its row; a missing one throws `EntityNotFoundException` for `Hero` |
| Repositories.PrismaHeroRepository.Save | src/infrastructure/repositories/prisma/hero.repository.prisma.ts:31-51 | saving upserts the hero's snapshot through the current client |
| Repositories.PrismaMemberRepository.constructor | src/infrastructure/repositories/prisma/member.repository.prisma.ts:22 | the repository works through the unit of work's current client |
| Repositories.PrismaMemberRepository.FindById | src/infrastructure/repositories/prisma/member.repository.prisma.ts:28-34 | a stored member is rehydrated from its row; a missing one gives null |
| Repositories.PrismaMemberRepository.Save | src/infrastructure/repositories/prisma/member.repository.prisma.ts:36-46 | saving upserts the member's snapshot through the current client |
| Repositories.PrismaMemberRepository.Delete | src/infrastructure/repositories/prisma/member.repository.prisma.ts:48-50 | deleting removes the row; a missing row makes the database throw and changes nothing |
| HeroUseCases.CreateInvalidNameChangesNothing | src/application/use-cases/hero/create-hero.use-case.ts:18-30 | creating with an invalid name throws `INVALID_NAME`, rolls back and publishes nothing |
| HeroUseCases.CreateStoresHero | src/application/use-cases/hero/create-hero.use-case.ts:18-30 | creating stores the new hero with the trimmed name, power 1, alive, leaves every other row alone, publishes at most `HeroCreated`, and returns the stored hero's view |
| HeroUseCases.UnknownHeroChangesNothing | src/infrastructure/repositories/prisma/hero.repository.prisma.ts:18-20 | renaming or levelling up an unknown hero throws `EntityNotFoundException`, rolls back and publishes nothing |
| HeroUseCases.ResaveIsIdentity | src/infrastructure/repositories/prisma/hero.repository.prisma.ts:13-51 | saving a hero just loaded leaves the store as it was |
| HeroUseCases.RenameToSameNameIsNoOp | src/application/use-cases/hero/rename-hero.use-case.ts:15-25 | renaming to the current name (after trimming) leaves the store as it was, publishes nothing and returns the hero's view |
| HeroUseCases.RenameStoresName | src/application/use-cases/hero/rename-hero.use-case.ts:15-25 | renaming to a new valid name stores the trimmed name and nothing else, and publishes at most `HeroRenamed` |
| HeroUseCases.LevelUpAddsOne | src/application/use-cases/hero/level-up-hero.use-case.ts:15-25 | levelling up stores the power plus one and nothing else, publishes at most `HeroLeveledUp` with the new power, and returns it |
| HeroUseCases.Finish | src/application/use-cases/hero/rename-hero.use-case.ts:20-23 | the work leaves the transaction store as it is; it throws exactly when the view cannot be built, and otherwise returns the view with the pulled events |
| HeroUseCases.CreateHeroWork | src/application/use-cases/hero/create-hero.use-case.ts:18-30 | an invalid name throws `INVALID_NAME` with the store untouched; a valid one writes the hero with the trimmed name, power 1 and alive; the only event is `HeroCreated`; no other row changes |
| HeroUseCases.RenameHeroWork | src/application/use-cases/hero/rename-hero.use-case.ts:15-25 | an unknown hero throws `EntityNotFoundException` with the store untouched; members are left alone, and in a keyed store no hero is added |
| HeroUseCases.RenameLoaded | src/application/use-cases/hero/rename-hero.use-case.ts:19-23 | an invalid name throws `INVALID_NAME` with the store untouched; a valid one stores the trimmed name, with no event when the name is unchanged; no other row changes |
| HeroUseCases.LevelUpHeroWork | src/application/use-cases/hero/level-up-hero.use-case.ts:15-25 | an unknown hero throws `EntityNotFoundException` with the store untouched; in a keyed store a known one gets one more power point and no hero is added; members are left alone |
| HeroUseCases.LevelUpLoaded | src/application/use-cases/hero/level-up-hero.use-case.ts:19-23 | the hero is stored with one more power point and the only event is `HeroLeveledUp` with the new power; no other row changes |
| HeroUseCases.SaveAndView | src/application/use-cases/hero/rename-hero.use-case.ts:20-23 | the common tail of the three works: save, pull the events and view the hero |
| HeroUseCases.CreateHeroUseCase.constructor | src/application/use-cases/hero/create-hero.use-case.ts:12-16 | the use case and its repository share one unit of work |
| HeroUseCases.CreateHeroUseCase.Execute | src/application/use-cases/hero/create-hero.use-case.ts:18-30 | the committed state, outcome and deliveries are those of running the create work in a transaction |
| HeroUseCases.CreateHeroUseCase.Work | src/application/use-cases/hero/create-hero.use-case.ts:20-27 | inside the transaction the work writes and returns what the create work function says |
| HeroUseCases.RenameHeroUseCase.constructor | src/application/use-cases/hero/rename-hero.use-case.ts:10-13 | the use case and its repository share one unit of work |
| HeroUseCases.RenameHeroUseCase.Execute | src/application/use-cases/hero/rename-hero.use-case.ts:15-25 | the committed state, outcome and deliveries are those of running the rename work in a transaction |
| HeroUseCases.RenameHeroUseCase.Work | src/application/use-cases/hero/rename-hero.use-case.ts:16-24 | inside the transaction the work writes and returns what the rename work function says |
| HeroUseCases.LevelUpHeroUseCase.constructor | src/application/use-cases/hero/level-up-hero.use-case.ts:10-13 | the use case and its repository share one unit of work |
| HeroUseCases.LevelUpHeroUseCase.Execute | src/application/use-cases/hero/level-up-hero.use-case.ts:15-25 | the committed state, outcome and deliveries are those of running the level-up work in a transaction |
| HeroUseCases.LevelUpHeroUseCase.Work | src/application/use-cases/hero/level-up-hero.use-case.ts:16-24 | inside the transaction the work writes and returns what the level-up work function says |
| MemberUseCases.CreatePropsOf | src/application/use-cases/member/register-member.use-case.ts:19-37 | the create props carry each of the input's sixteen values under the generated id, and never a profession |
| MemberUseCases.UpdatePropsOf | src/application/use-cases/member/update-member.use-case.ts:21-37 | the update props carry each of the input's values but never a profession (the use case passes `professionOfFaithDate`, which `update` ignores, and not `profession`) |
| MemberUseCases.RegisterRejectedChangesNothing | src/application/use-cases/member/register-member.use-case.ts:17-45 | a registration the entity rejects throws its error, rolls back and publishes nothing |
| MemberUseCases.RegisterStoresMember | src/application/use-cases/member/register-member.use-case.ts:17-45 | an accepted registration whose dates render stores the created member, with no profession, and leaves every other row alone |
| MemberUseCases.RegisterPublishesOrRollsBack | src/application/use-cases/member/register-member.use-case.ts:39-43 | an accepted registration publishes at most `MemberRegistered` and returns the member's view; when a date does not render, the view throws and the save is rolled back |
| MemberUseCases.RegisterCommunicantNeedsAdmissionFields | src/application/use-cases/member/register-member.use-case.ts:19-37 | a communicant whose admission fields are incomplete is not registered, and nothing is stored or published |
| MemberUseCases.UnknownMemberChangesNothing | src/application/use-cases/member/update-member.use-case.ts:17-20 | update, classification change, archive, restore and a confirmed delete of an unknown member throw `EntityNotFoundException`, roll back and publish nothing |
| MemberUseCases.ApplyUpdateKeepsProfession | src/application/use-cases/member/update-member.use-case.ts:21-37 | without a profession in the props, the update keeps the member's profession |
| MemberUseCases.UpdateKeepsStoredProfession | src/application/use-cases/member/update-member.use-case.ts:14-42 | the update use case never changes a stored profession |
| MemberUseCases.UpdateStoresChanges | src/application/use-cases/member/update-member.use-case.ts:14-42 | a rejected update throws its error and rolls back; an accepted one stores exactly the entity's updated state |
| MemberUseCases.UpdatePublishesChanges | src/application/use-cases/member/update-member.use-case.ts:38-39 | an accepted update publishes at most `MemberUpdated`, and nothing at all when nothing changed |
| MemberUseCases.ChangeClassificationRejects | src/application/use-cases/member/change-member-classification.use-case.ts:16-26 | an invalid classification throws `INVALID_CLASSIFICATION`, rolls back and publishes nothing |
| MemberUseCases.ChangeClassificationStores | src/application/use-cases/member/change-member-classification.use-case.ts:16-26 | a valid classification is stored, and the row changes in nothing else |
| MemberUseCases.ChangeClassificationPublishes | src/application/use-cases/member/change-member-classification.use-case.ts:21-23 | a classification change publishes at most `MemberClassificationChanged`, and nothing when the classification was already that one |
| MemberUseCases.ClassificationWorkFinishes | src/application/use-cases/member/change-member-classification.use-case.ts:18-23 | the work of a valid change saves the member with the new classification and collects the entity's events |
| MemberUseCases.FinishMemberSettles | src/application/use-cases/member/update-member.use-case.ts:38-39 | a work ending in a member's view commits and publishes its events when the dates render, and rolls back with `Invalid time value` otherwise |
| MemberUseCases.StatusStores | src/application/use-cases/member/archive-member.use-case.ts:11-20 | archiving or restoring stores the new status and nothing else; when the status already was that, nothing is published |
| MemberUseCases.ArchiveIsIdempotent | src/application/use-cases/member/archive-member.use-case.ts:11-20 | archiving an archived member changes nothing and collects no events |
| MemberUseCases.ArchiveThenRestore | src/application/use-cases/member/restore-member.use-case.ts:11-22 | restoring right after archiving an active member gives back the original store |
| MemberUseCases.DeleteNeedsConfirmation | src/application/use-cases/member/delete-member-permanently.use-case.ts:14-18 | a confirmation other than `DELETE <id>` throws `INVALID_DELETE_CONFIRMATION` before any transaction |
| MemberUseCases.DeleteRemovesMember | src/application/use-cases/member/delete-member-permanently.use-case.ts:14-28 | a confirmed delete removes exactly the member's row and publishes at most `MemberDeleted` |
| MemberUseCases.FinishMember | src/application/use-cases/member/update-member.use-case.ts:38-39 | the work leaves the transaction store as it is; it throws exactly when the view cannot be built, and otherwise returns the view with the collected events |
| MemberUseCases.RegisterMemberWork | src/application/use-cases/member/register-member.use-case.ts:17-45 | a rejected creation throws the entity's error with the store untouched; an accepted one writes the member's row, whose only event is `MemberRegistered`; no other row changes |
| MemberUseCases.UpdateMemberWork | src/application/use-cases/member/update-member.use-case.ts:14-42 | an unknown member throws `EntityNotFoundException` with the store untouched; heroes are left alone, and in a keyed store no member is added |
| MemberUseCases.UpdateLoaded | src/application/use-cases/member/update-member.use-case.ts:21-39 | a failing update throws its error with the store untouched; an accepted one writes the member's row and adds no other key, with no event when nothing changed; no other row changes |
| MemberUseCases.ChangeClassificationWork | src/application/use-cases/member/change-member-classification.use-case.ts:16-26 | an unknown member throws `EntityNotFoundException` with the store untouched; heroes are left alone, and in a keyed store no member is added |
| MemberUseCases.ClassificationLoaded | src/application/use-cases/member/change-member-classification.use-case.ts:17-24 | an invalid classification throws `INVALID_CLASSIFICATION` with the store untouched; a valid one is stored in the member's row; no other row changes |
| MemberUseCases.StatusWork | src/application/use-cases/member/archive-member.use-case.ts:11-20 | an unknown member throws `EntityNotFoundException` with the store untouched; heroes are left alone, and in a keyed store no member is added |
| MemberUseCases.StatusLoaded | src/application/use-cases/member/restore-member.use-case.ts:12-21 | the member's row holds the target status; the work never throws, and it collects no event exactly when the status already was the target |
| MemberUseCases.DeleteWork | src/application/use-cases/member/delete-member-permanently.use-case.ts:20-27 | an unknown member throws `EntityNotFoundException` with the store untouched; a known one's row, and only it, is removed |
| MemberUseCases.DeletePermanently | src/application/use-cases/member/delete-member-permanently.use-case.ts:14-28 | a wrong confirmation throws `INVALID_DELETE_CONFIRMATION` and changes nothing; a confirmed delete of an unknown member throws `EntityNotFoundException`; a confirmed delete of a known one commits the store without that row and does not throw |
| MemberUseCases.SaveAndView | src/application/use-cases/member/update-member.use-case.ts:38-39 | the common tail of the member works: save, pull the events and view the member |
| MemberUseCases.RegisterMemberUseCase.constructor | src/application/use-cases/member/register-member.use-case.ts:11-15 | the use case and its repository share one unit of work |
| MemberUseCases.RegisterMemberUseCase.Execute | src/application/use-cases/member/register-member.use-case.ts:17-45 | the committed state, outcome and deliveries are those of running the register work in a transaction |
| MemberUseCases.RegisterMemberUseCase.Work | src/application/use-cases/member/register-member.use-case.ts:18-43 | inside the transaction the work writes and returns what the register work function says |
| MemberUseCases.UpdateMemberUseCase.constructor | src/application/use-cases/member/update-member.use-case.ts:9-12 | the use case and its repository share one unit of work |
| MemberUseCases.UpdateMemberUseCase.Execute | src/application/use-cases/member/update-member.use-case.ts:14-42 | the committed state, outcome and deliveries are those of running the update work in a transaction |
| MemberUseCases.UpdateMemberUseCase.Work | src/application/use-cases/member/update-member.use-case.ts:15-40 | inside the transaction the work writes and returns what the update work function says |
| MemberUseCases.ChangeMemberClassificationUseCase.constructor | src/application/use-cases/member/change-member-classification.use-case.ts:11-14 | the use case and its repository share one unit of work |
| MemberUseCases.ChangeMemberClassificationUseCase.Execute | src/application/use-cases/member/change-member-classification.use-case.ts:16-26 | the committed state, outcome and deliveries are those of running the classification work in a transaction |
| MemberUseCases.ChangeMemberClassificationUseCase.Work | src/application/use-cases/member/change-member-classification.use-case.ts:17-24 | inside the transaction the work writes and returns what the classification work function says |
| MemberUseCases.ChangeMemberStatusUseCase.constructor | src/application/use-cases/member/archive-member.use-case.ts:6-9 | the archive (or restore) use case and its repository share one unit of work |
| MemberUseCases.ChangeMemberStatusUseCase.Execute | src/application/use-cases/member/archive-member.use-case.ts:11-20 | the committed state, outcome and deliveries are those of running the archive or restore work in a transaction |
| MemberUseCases.ChangeMemberStatusUseCase.Work | src/application/use-cases/member/restore-member.use-case.ts:12-21 | inside the transaction the work writes what the status work function says |
| MemberUseCases.DeleteMemberPermanentlyUseCase.constructor | src/application/use-cases/member/delete-member-permanently.use-case.ts:9-12 | the use case and its repository share one unit of work |
| MemberUseCases.DeleteMemberPermanentlyUseCase.Execute | src/application/use-cases/member/delete-member-permanently.use-case.ts:14-28 | the confirmation is checked first; then the committed state, outcome and deliveries are those of running the delete work in a transaction |
| MemberUseCases.DeleteMemberPermanentlyUseCase.Work | src/application/use-cases/member/delete-member-permanently.use-case.ts:20-27 | inside the transaction the work deletes the row and collects `MemberDeleted` |
| HeroActions.CheckedName | src/infrastructure/actions/hero/create-hero.action.ts:12-17 | a name is accepted exactly when it has at least two UTF-16 code units once trimmed, and it is passed on trimmed; otherwise the action throws its name message |
| HeroActions.AstralNameAccepted | src/infrastructure/actions/hero/create-hero.action.ts:12-14 | the guard lets a single emoji through and refuses a single letter |
| HeroActions.CheckedNameIsValid | src/infrastructure/actions/hero/create-hero.action.ts:12-17 | a name the action accepts is one the entity accepts and keeps as it is |
| HeroActions.CreateHeroRequest | src/infrastructure/actions/hero/create-hero.action.ts:12-17 | a missing input or a name under two UTF-16 code units once trimmed throws; otherwise the use case gets the trimmed name |
| HeroActions.CreateHero | src/infrastructure/actions/hero/create-hero.action.ts:11-19 | a request the action rejects changes nothing and publishes nothing |
| HeroActions.AcceptedCreateStoresTrimmedName | src/infrastructure/actions/hero/create-hero.action.ts:11-19 | an accepted request stores a level-1 hero with the trimmed name and publishes at most `HeroCreated` |
| HeroActions.CreateHeroAction | src/infrastructure/actions/hero/create-hero.action.ts:11-19 | the committed state, outcome and deliveries are those of the create function |
| HeroActions.RenameHeroRequest | src/infrastructure/actions/hero/rename-hero.action.ts:10-21 | a missing id throws `Hero id is required` first; then a new name under two UTF-16 code units once trimmed throws; otherwise the use case gets the id and the trimmed name |
| HeroActions.RenameHero | src/infrastructure/actions/hero/rename-hero.action.ts:9-22 | a request the action rejects changes nothing and publishes nothing |
| HeroActions.AcceptedRenameStoresTrimmedName | src/infrastructure/actions/hero/rename-hero.action.ts:9-22 | an unknown hero gives `EntityNotFoundException` and no change; a known hero with another name is stored renamed, and at most `HeroRenamed` is published |
| HeroActions.RenameHeroAction | src/infrastructure/actions/hero/rename-hero.action.ts:9-22 | the committed state, outcome and deliveries are those of the rename function |
| HeroActions.HeroEvents | src/infrastructure/actions/hero/list-hero-events.action.ts:12 | the filter keeps only events whose name starts with `Hero`, and never adds any |
| HeroActions.HeroEventsMembership | src/infrastructure/actions/hero/list-hero-events.action.ts:12 | an event is kept exactly when it was there and its name starts with `Hero` |
| HeroActions.HeroEventsOfConcat | src/infrastructure/actions/hero/list-hero-events.action.ts:12 | filtering distributes over concatenation, so the filter keeps the order |
| HeroActions.ListHeroEventsAction | src/infrastructure/actions/hero/list-hero-events.action.ts:10-13 | the result is the hero events among the newest `limit` log entries (20 by default) |
| HeroActions.ListedHeroEventsWithinWindow | src/infrastructure/actions/hero/list-hero-events.action.ts:10-13 | at most `limit` events come back, and an event comes back exactly when it is a hero event among the newest `limit` |
| DeleteMemberAction.DeleteRequestOf | src/infrastructure/actions/members/delete-member-permanently.action.ts:20-29 | a missing input, a blank id and a confirmation other than `DELETE <trimmed id>` throw their errors, in that order; an accepted request carries the trimmed id and its confirmation |
| DeleteMemberAction.DeleteMemberPermanently | src/infrastructure/actions/members/delete-member-permanently.action.ts:17-33 | a request the action rejects changes nothing and publishes nothing |
| DeleteMemberAction.ActionCheckSubsumesUseCaseCheck | src/infrastructure/actions/members/delete-member-permanently.action.ts:26-32 | every request the action lets through also passes the use case's confirmation check, so only the delete work decides the result |
| DeleteMemberAction.ConfirmedDeleteRemovesMember | src/infrastructure/actions/members/delete-member-permanently.action.ts:17-33 | a confirmed request for a stored member removes exactly that member and returns normally |
| DeleteMemberAction.SurroundingSpaceAccepted | src/infrastructure/actions/members/delete-member-permanently.action.ts:24-27 | spaces around the id and the confirmation do not matter |
| DeleteMemberAction.PaddedTrim | src/infrastructure/actions/members/delete-member-permanently.action.ts:24-25 | trimming a normal text padded with spaces gives back the text |
| DeleteMemberAction.DeleteMemberPermanentlyAction | src/infrastructure/actions/members/delete-member-permanently.action.ts:17-33 | the committed state, outcome and deliveries are those of the delete function |
| RegisterMemberAction.ChoicesOf | src/infrastructure/actions/members/register-member.action.ts:77-79 | succeeds exactly when the classification, the sex and the marital status all pass; an invalid classification is the error; the accepted names are the request's trimmed words |
| RegisterMemberAction.FactsOf | src/infrastructure/actions/members/register-member.action.ts:80-82 | succeeds exactly when the birth date parses and both flags read as booleans; the date is `parseDate`'s value and the flags are `parseBoolean`'s readings |
| RegisterMemberAction.TextsOf | src/infrastructure/actions/members/register-member.action.ts:83-87 | succeeds exactly when the four texts are non-blank strings and the profession of faith date parses; the texts are the request's texts trimmed, and the date is `parseDate`'s value |
| RegisterMemberAction.PlacesOf | src/infrastructure/actions/members/register-member.action.ts:88-89 | succeeds exactly when both builders do; the address and the reception are the ones `buildMemberAddress` and `buildMemberReception` make from the request |
| RegisterMemberAction.NormalizeRegisterInput | src/infrastructure/actions/members/register-member.action.ts:76-111 | an invalid classification is the first error; a missing profession of faith date is always an error; an accepted input carries the request's trimmed texts, the validators' readings of the choices, dates and flags, the built address and reception, and `toNullableString` of cpf, email and phone |
| RegisterMemberAction.NoErrorIffAllPass | src/infrastructure/actions/members/register-member.action.ts:76-89 | the normalisation accepts a request exactly when each of its thirteen checks passes |
| RegisterMemberAction.FirstErrorIsFirst | src/infrastructure/actions/members/register-member.action.ts:76-89 | the error thrown is that of the first failing check in source order (classification, sex, marital status, birth date, literacy, baptism, background, place of birth, profession of faith date, celebrant, full name, address, reception), and every check before it passes |
| RegisterMemberAction.NormalizeErrorIsFirst | src/infrastructure/actions/members/register-member.action.ts:76-89 | the error of the normalisation is the first exception of the thirteen checks in source order |
| RegisterMemberAction.FirstInNoneIffAllPass | src/infrastructure/actions/members/register-member.action.ts:76-89 | no first exception exactly when no check throws |
| RegisterMemberAction.FailingInIsFirst | src/infrastructure/actions/members/register-member.action.ts:76-89 | the failing check throws the first exception and every earlier one passes |
| RegisterMemberAction.RegisterInputOf | src/infrastructure/actions/members/register-member.action.ts:65-69 | a missing input throws `Input is required.`; otherwise the input is normalised |
| RegisterMemberAction.ActionInputOf | src/infrastructure/actions/members/register-member.action.ts:45-62 | each of the sixteen properties reads as undefined when the request does not carry it (every property of a non-object), and as the carried value when it does |
| RegisterMemberAction.RegisterMember | src/infrastructure/actions/members/register-member.action.ts:64-74 | an input the action rejects changes nothing and publishes nothing |
| RegisterMemberAction.ProfessionOfFaithDateRequired | src/infrastructure/actions/members/register-member.action.ts:85 | a missing, null or blank profession of faith date is rejected |
| RegisterMemberAction.CommunicantRegistrationFails | src/infrastructure/actions/members/register-member.action.ts:91-108 | the action never sends a profession, so every communicant registration it lets through comes back as `MISSING_COMMUNICANT_REQUIRED_FIELDS` (or a name error) with nothing stored |
| RegisterMemberAction.NonCommunicantRegistrationAccepted | src/infrastructure/actions/members/register-member.action.ts:91-108 | a non-communicant registration the action lets through is accepted by the entity exactly when the name has at least two UTF-16 code units |
| RegisterMemberAction.ProfessionIgnored | src/infrastructure/actions/members/register-member.action.ts:45-62 | a `profession` property makes no difference to the registration |
| RegisterMemberAction.RegisterMemberAction | src/infrastructure/actions/members/register-member.action.ts:64-74 | the committed state, outcome and deliveries are those of the register function |
| UpdateMemberAction.OwnProperty | src/infrastructure/actions/members/update-member.action.ts:157-159 | a property is read exactly when the object has it as its own |
| UpdateMemberAction.TextProperty | src/infrastructure/actions/members/update-member.action.ts:80-82 | an absent text stays unset; a present one must be a non-blank string and is stored trimmed, otherwise its message is thrown |
| UpdateMemberAction.NullableProperty | src/infrastructure/actions/members/update-member.action.ts:84-94 | a present contact becomes its sanitised text (null when blank); an absent one stays unset |
| UpdateMemberAction.SexProperty | src/infrastructure/actions/members/update-member.action.ts:96-101 | a null sex throws `Member sex cannot be null.`; an accepted one is the sex named by the trimmed text |
| UpdateMemberAction.MaritalStatusProperty | src/infrastructure/actions/members/update-member.action.ts:103-108 | a null marital status throws its own message; an accepted one is the status named by the trimmed text |
| UpdateMemberAction.AddressProperty | src/infrastructure/actions/members/update-member.action.ts:110-112 | a present address is accepted exactly when `buildMemberAddress` accepts it, and then it is that builder's (normal) address; otherwise its error |
| UpdateMemberAction.FlagProperty | src/infrastructure/actions/members/update-member.action.ts:114-120 | a present flag that is undefined, null or empty throws; an accepted one is what `parseBoolean` makes of it |
| UpdateMemberAction.BirthDateProperty | src/infrastructure/actions/members/update-member.action.ts:122-124 | a present but empty birth date is left unset; any other accepted one is `parseDate`'s valid reading of the request; a failure is `INVALID_BIRTH_DATE` on a date that does not parse |
| UpdateMemberAction.ReceptionProperty | src/infrastructure/actions/members/update-member.action.ts:126-128 | a present reception is accepted exactly when `buildMemberReception` accepts it, and then it is that builder's reception, with a valid date and a normal location; otherwise its error |
| UpdateMemberAction.NormalizeUpdate | src/infrastructure/actions/members/update-member.action.ts:76-155 | the method throws the first failing property's error in source order, or returns the normalised input |
| UpdateMemberAction.ActionInputOf | src/infrastructure/actions/members/update-member.action.ts:45-62 | each of the sixteen properties is present exactly when the request carries it as its own, with the value it carries |
| UpdateMemberAction.NormalizeUpdateInput | src/infrastructure/actions/members/update-member.action.ts:76-155 | the normalisation fails exactly when the first failing property check exists (by `NoErrorIffAllPass`, exactly when some check fails), and then throws that check's error; that every earlier check passed is `FirstErrorIsFirst` |
| UpdateMemberAction.NormalizedOf | src/infrastructure/actions/members/update-member.action.ts:76-155 | a property the request does not carry stays undefined; the contacts are present exactly when carried; `professionOfFaithDate` is never set |
| UpdateMemberAction.AssignIdentity | src/infrastructure/actions/members/update-member.action.ts:77-94 | the id, the name and the contacts are checked in order and assigned |
| UpdateMemberAction.AssignChoices | src/infrastructure/actions/members/update-member.action.ts:96-112 | sex, marital status and address are checked in order and assigned |
| UpdateMemberAction.AssignRecords | src/infrastructure/actions/members/update-member.action.ts:114-128 | literacy, birth date and reception are checked in order and assigned |
| UpdateMemberAction.AssignTexts | src/infrastructure/actions/members/update-member.action.ts:130-152 | celebrant, profession, place of birth, baptism and background are checked in order and assigned |
| UpdateMemberAction.NoErrorIffAllPass | src/infrastructure/actions/members/update-member.action.ts:76-155 | the normalisation has no error exactly when every property check passes |
| UpdateMemberAction.FirstErrorIsFirst | src/infrastructure/actions/members/update-member.action.ts:76-155 | the error thrown is that of the first failing property, and every property before it passes |
| UpdateMemberAction.UpdateInputOf | src/infrastructure/actions/members/update-member.action.ts:65-70 | a missing input throws `Input is required.`; otherwise it is normalised |
| UpdateMemberAction.UpdateMember | src/infrastructure/actions/members/update-member.action.ts:64-74 | an input the action rejects changes nothing and publishes nothing |
| UpdateMemberAction.UpdateMemberAction | src/infrastructure/actions/members/update-member.action.ts:64-74 | the committed state, outcome and deliveries are those of the update function |
| UpdateMemberAction.AbsentPropertiesStayUndefined | src/infrastructure/actions/members/update-member.action.ts:80-120 | each of name, contacts, sex, marital status, address and literacy is set exactly when the request has it |
| UpdateMemberAction.AbsentHistoryStaysUndefined | src/infrastructure/actions/members/update-member.action.ts:122-152 | the birth date is set exactly when it is present and not empty; every other property exactly when present; no profession of faith date is ever set |
| UpdateMemberAction.PresentPropertiesAreChecked | src/infrastructure/actions/members/update-member.action.ts:76-155 | every property that is set holds the checked value of the request's property: trimmed texts, `toNullableString` contacts, the named choices, the built address and reception, the parsed birth date and `parseBoolean`'s flags |
| UpdateMemberAction.RejectedNullSelects | src/infrastructure/actions/members/update-member.action.ts:96-108 | a null sex or marital status is rejected |
| UpdateMemberAction.RejectedAbsentFlags | src/infrastructure/actions/members/update-member.action.ts:114-148 | a present literacy or baptism flag that is undefined, null or empty is rejected |
| UpdateMemberAction.RejectedBlankTexts | src/infrastructure/actions/members/update-member.action.ts:130-136 | a present profession or celebrant that is not a non-blank string is rejected |
| UpdateMemberAction.BlankBirthDateIsNoError | src/infrastructure/actions/members/update-member.action.ts:122-124 | an empty birth date is no error and leaves the birth date unset |
| UpdateMemberAction.AcceptedUpdateFailsOnlyOnShortName | src/infrastructure/actions/members/update-member.action.ts:76-155 | after the action's checks the entity can reject an update only for a name shorter than two UTF-16 code units |
| UpdateMemberAction.NullishContactsClear | src/infrastructure/actions/members/update-member.action.ts:84-94 | a present contact that is null, undefined or blank clears the contact |
| UpdateMemberAction.AcceptedUpdateStoresRequest | src/infrastructure/actions/members/update-member.action.ts:64-74 | an accepted update of a stored member stores every value it sets and keeps the stored profession |
| UpdateMemberAction.IdOnlyUpdateChangesNothing | src/infrastructure/actions/members/update-member.action.ts:76-78 | a request with only an id gives not-found for an unknown member, and otherwise returns the member unchanged, publishing nothing |
| UpdateMemberAction.ProfessionOfFaithDateNotRead | src/infrastructure/actions/members/update-member.action.ts:45-62 | the properties read from a request do not depend on its `professionOfFaithDate` |
| UpdateMemberAction.ProfessionOfFaithDateIgnored | src/infrastructure/actions/members/update-member.action.ts:45-62 | a `professionOfFaithDate` property makes no difference to the update |
| SearchMembersQuery.NormalizePage | src/infrastructure/queries/prisma/member/prisma-search-members.query.ts:77-82 | a value below 1, NaN or missing gives page 1; any other number is floored (infinity stays infinity); the result is a whole number of at least 1 |
| SearchMembersQuery.NormalizePageSize | src/infrastructure/queries/prisma/member/prisma-search-members.query.ts:84-91 | the size is always between 1 and 100: the floor of the request capped at 100, or 10 for a missing, NaN or too small value |
| SearchMembersQuery.SkipOf | src/infrastructure/queries/prisma/member/prisma-search-members.query.ts:40 | the rows skipped are `(page - 1) * pageSize` |
| SearchMembersQuery.NonEmptyTrimmed | src/infrastructure/queries/prisma/member/prisma-search-members.query.ts:58-66 | a filter text is used exactly when it is not blank, and then trimmed |
| SearchMembersQuery.WhereOf | src/infrastructure/queries/prisma/member/prisma-search-members.query.ts:55-74 | the name and profile conditions are the non-blank trimmed filters; the status condition is `active` by default, the visibility when it is `active` or `archived`, and none otherwise |
| SearchMembersQuery.BuildWhere | src/infrastructure/queries/prisma/member/prisma-search-members.query.ts:55-74 | the method builds the condition the function describes |
| SearchMembersQuery.VisibilityFilters | src/infrastructure/queries/prisma/member/prisma-search-members.query.ts:68-71 | the default and `active` select active members only, `archived` archived members only, and any other visibility ignores the status |
| SearchMembersQuery.MapAll | src/infrastructure/queries/prisma/member/prisma-search-members.query.ts:48 | mapping a list succeeds exactly when every element maps, keeps the length and the order, and otherwise fails with one element's error |
| SearchMembersQuery.MapRows | src/infrastructure/queries/prisma/member/prisma-search-members.query.ts:48 | the rows map to views exactly when every row's dates render, one view per row in order; otherwise `Invalid time value` is thrown |
| SearchMembersQuery.ArgsOf | src/infrastructure/queries/prisma/member/prisma-search-members.query.ts:32-44 | the query asks for the built condition, skips the earlier pages and takes one page size |
| SearchMembersQuery.SearchResultOf | src/infrastructure/queries/prisma/member/prisma-search-members.query.ts:31-53 | the result carries the mapped rows, the count under the same condition, and the normalised page and page size |
| SearchMembersQuery.Execute | src/infrastructure/queries/prisma/member/prisma-search-members.query.ts:31-53 | the method returns what the result function describes |
| SearchMembersQuery.Filter | src/infrastructure/queries/prisma/member/prisma-search-members.query.ts:38-44 | the reference table's filter keeps only rows that meet the condition |
| SearchMembersQuery.FilterMembership | src/infrastructure/queries/prisma/member/prisma-search-members.query.ts:38-44 | a row is kept exactly when it is in the table and meets the condition |
| SearchMembersQuery.Window | src/infrastructure/queries/prisma/member/prisma-search-members.query.ts:40-41 | a window holds at most `take` rows |
| SearchMembersQuery.WholeSkip | src/infrastructure/queries/prisma/member/prisma-search-members.query.ts:40 | for a whole page of at least 1 the skip is a whole non-negative count of rows |
| SearchMembersQuery.TableFindManyIsWindow | src/infrastructure/queries/prisma/member/prisma-search-members.query.ts:38-43 | on a reference table, the rows fetched are the page's window of the matching rows |
| SearchMembersQuery.TableSearchIsPage | src/infrastructure/queries/prisma/member/prisma-search-members.query.ts:31-53 | on a reference table, the result holds at most one page of matching members, and the total counts every match |
| SearchMembersAction.NormalizePositiveInteger | src/infrastructure/actions/members/search-members.action.ts:41-56 | a finite number of at least 1 is floored; a string parses as a decimal integer and is kept when it is at least 1; everything else gives the fallback |
| SearchMembersAction.PositiveIntegerOfDecimal | src/infrastructure/actions/members/search-members.action.ts:47-51 | a page written in decimal comes back as itself; a word gives the fallback |
| SearchMembersAction.NormalizeVisibility | src/infrastructure/actions/members/search-members.action.ts:58-67 | a missing or blank visibility is unset; one of `active`, `archived` or `all` is kept trimmed; anything else throws `Invalid visibility filter.` |
| SearchMembersAction.QueryInputOf | src/infrastructure/actions/members/search-members.action.ts:21-38 | the query gets the normalised page and size (1 and 10 by default), the sanitised name and profile, and the visibility; only an invalid visibility fails |
| SearchMembersAction.SearchMembers | src/infrastructure/actions/members/search-members.action.ts:21-39 | an invalid visibility throws before any query runs; otherwise the query's result comes back unchanged |
| SearchMembersAction.SearchMembersAction | src/infrastructure/actions/members/search-members.action.ts:21-39 | the method returns what the action function describes |
| SearchMembersAction.ActionPagingIsEchoed | src/infrastructure/actions/members/search-members.action.ts:23-38 | through the action the page comes back as requested and at least 1, and the size as requested capped at 100 |
| SearchMembersAction.ActionFilterIsSanitized | src/infrastructure/actions/members/search-members.action.ts:26-38 | the filters reach the query sanitised, and the status filter is `active` unless `archived` or `all` is asked for |
| MemberRecordMapper.NormalizeClassification | src/infrastructure/queries/prisma/member/member-record.mapper.ts:7-10 | the view's classification is `non-communicant` exactly for the stored `nonCommunicant`, and `communicant` otherwise |
| MemberRecordMapper.NormalizeMaritalStatus | src/infrastructure/queries/prisma/member/member-record.mapper.ts:12-22 | married, divorced and widowed are kept, and anything else is `single` |
| MemberRecordMapper.NormalizeReceptionMode | src/infrastructure/queries/prisma/member/member-record.mapper.ts:24-33 | transfer and restoration are kept, and anything else is `profession_of_faith` |
| MemberRecordMapper.RowIsoString | src/infrastructure/queries/prisma/member/member-record.mapper.ts:35-37 | a missing date is the empty string, and any other date its ISO string |
| MemberRecordMapper.MapRowToView | src/infrastructure/queries/prisma/member/member-record.mapper.ts:39-72 | the mapping throws exactly when a date does not render; otherwise every view field is the row's value or its stated default |
| MemberRecordMapper.NormalizersFixViewNames | src/infrastructure/queries/prisma/member/member-record.mapper.ts:7-33 | the normalisers keep every name the view allows, except the classification `non-communicant` |
| MemberRecordMapper.StoredNamesNormalized | src/infrastructure/queries/prisma/member/member-record.mapper.ts:7-33 | for a row the repository wrote, the normalisers give the domain's own names |
| MemberRecordMapper.RowViewMatchesMemberView | src/infrastructure/queries/prisma/member/member-record.mapper.ts:39-72 | for a row the repository wrote, the search view and the domain mapper's view agree except that the search view always has a profession |
| MemberForm.CreateEmptyMemberFormValues | src/app/members/_components/member-form.tsx:57-86 | the empty form is all blank, classified `communicant`, with both flags off and no profession |
| MemberForm.MissingTexts | src/app/members/_components/member-form.tsx:124-128 | at most one message per listed field, each from the list given |
| MemberForm.MissingTextsExact | src/app/members/_components/member-form.tsx:124-128 | the text messages are exactly those of the blank fields: every blank field's message is there, and every message there belongs to a blank field |
| MemberForm.MissingTextsEmpty | src/app/members/_components/member-form.tsx:124-128 | no text message exactly when every listed field is not blank |
| MemberForm.EveryTextFieldListed | src/app/members/_components/member-form.tsx:114-122 | every required text field is in the list |
| MemberForm.Validate | src/app/members/_components/member-form.tsx:111-159 | the method returns `validate`'s messages, in order |
| MemberForm.ValidationErrors | src/app/members/_components/member-form.tsx:111-159 | there are at most fourteen messages; an empty birth date or sex always has its message; editing never asks for a classification |
| MemberForm.CheckOthers | src/app/members/_components/member-form.tsx:130-156 | the method returns the date, select and classification messages, in order |
| MemberForm.NoErrorsIffComplete | src/app/members/_components/member-form.tsx:111-159 | there are no messages exactly when the form is complete |
| MemberForm.ClassificationOnlyRequired | src/app/members/_components/member-form.tsx:154-156 | the classification matters only to whether it is blank, and only in the create form |
| MemberForm.MissingTextsOfSameTexts | src/app/members/_components/member-form.tsx:124-128 | the text messages depend on the text fields only |
| MemberForm.Messages | src/app/members/_components/member-form.tsx:114-122 | the messages of a field list, in order |
| MemberForm.AllBlankAllMissing | src/app/members/_components/member-form.tsx:124-128 | when every text is blank every message is listed |
| MemberForm.EmptyFormErrors | src/app/members/_components/member-form.tsx:111-159 | an untouched create form gives the thirteen messages, in order |
| MemberForm.MemberFormState.constructor | src/app/members/_components/member-form.tsx:89-91 | a new form holds the initial values, no messages, and has not been submitted |
| MemberForm.MemberFormState.HandleSubmit | src/app/members/_components/member-form.tsx:161-171 | a submit marks the form submitted; an incomplete form shows its messages and sends nothing; a complete one clears the messages and sends its values |
| MemberFormAdapters.ToDateInput | src/app/members/_components/member-form-adapters.ts:7-15 | an empty value or an invalid date gives the empty string; any other gives the date's `YYYY-MM-DD` in UTC |
| MemberFormAdapters.ViewDateBecomesDateInput | src/app/members/_components/member-form-adapters.ts:7-15 | a date the view rendered becomes the first ten characters of its ISO string |
| MemberFormAdapters.ToNullable | src/app/members/_components/member-form-adapters.ts:17-20 | a blank text is null, and any other is trimmed |
| MemberFormAdapters.ToOptional | src/app/members/_components/member-form-adapters.ts:22-25 | a blank text is undefined, and any other is trimmed |
| MemberFormAdapters.AdaptersAgreeWithServer | src/app/members/_components/member-form-adapters.ts:17-25 | the server makes the same of what the adapters send as of the raw text |
| MemberFormAdapters.MemberViewToFormValues | src/app/members/_components/member-form-adapters.ts:27-57 | the edit form takes every value of the view (missing optional parts as empty), with literacy always checked, no profession of faith date, and the dates as date inputs |
| MemberFormAdapters.EditFormNeedsProfessionOfFaithDate | src/app/members/_components/member-form-adapters.ts:27-57 | an edit form filled from a view is never complete: it always asks for the profession of faith date |
| MemberFormAdapters.FormAddressAccepted | src/app/members/_components/member-form-adapters.ts:59-90 | the server accepts the address the form sends exactly when the form's street and city checks pass, and trims them |
| MemberFormAdapters.BuildRegisterMemberInput | src/app/members/_components/member-form-adapters.ts:59-90 | the register request has the contacts through `toNullable`, every other text and both flags as typed, the form's address and reception objects, and no profession of faith date |
| MemberFormAdapters.BuildUpdateMemberInput | src/app/members/_components/member-form-adapters.ts:92-123 | the update request carries all sixteen properties: the member id, the texts, selects and birth date as typed, the flags, the contacts through `toNullable`, the profession, and the form's address and reception |
| MemberFormAdapters.FormRegistrationAlwaysRejected | src/app/members/_components/member-form-adapters.ts:59-90 | the register action rejects every request built from the form |
| MemberFormAdapters.ClearedContactsClearMember | src/app/members/_components/member-form-adapters.ts:92-123 | a contact blanked in the edit form is cleared on the member |
| MembersPage.ParsePage | src/app/members/page.tsx:26-30 | the page is at least 1: a parsed number of at least 1, and 1 for a missing, empty or other value |
| MembersPage.ParsePageOfWritten | src/app/members/page.tsx:26-30 | a page written into the URL reads back as itself |
| MembersPage.AppliedFiltersOf | src/app/members/page.tsx:37-46 | the visibility is `archived` or `all` when the URL says so and `active` otherwise; the name and profile are trimmed |
| MembersPage.CurrentPage | src/app/members/page.tsx:48 | the current page is at least 1 |
| MembersPage.TotalPages | src/app/members/page.tsx:68-69 | the page count is at least 1 and is the fewest pages of ten that hold every item |
| MembersPage.EveryItemHasAPage | src/app/members/page.tsx:68-69 | every item is on a page within the page count |
| MembersPage.ClampPage | src/app/members/page.tsx:107-113 | the page moved to is within range, and is the one asked for when that is in range |
| MembersPage.ClampIdempotent | src/app/members/page.tsx:109 | clamping twice is clamping once |
| MembersPage.UpdateQueryString | src/app/members/page.tsx:72-85 | an undefined or empty value removes its parameter, any other sets it, and the other parameters stay |
| MembersPage.FirstPageWritten | src/app/members/page.tsx:87-105 | the page the filter handlers write reads as page 1 |
| MembersPage.SubmitFiltersResetsPage | src/app/members/page.tsx:87-98 | submitting filters goes to page 1 and applies the trimmed filters |
| MembersPage.ClearFiltersResetsPage | src/app/members/page.tsx:100-105 | clearing filters goes to page 1 of the active members, with no name or profile |
| MembersPage.PageChangeStaysInRange | src/app/members/page.tsx:107-113 | a page change lands on the clamped page, within range, and keeps the filters |
| MembersPage.RequestedPageReachesQuery | src/app/members/page.tsx:60-66 | the page and the page size the page asks for pass the search action unchanged |

## Left out

- **Time and identity.** Clocks, `randomUUID` and the id generator are parameters. Event ids and timestamps arrive as an `EventStamp`, and `createdAt` as `now`.
- **Date parsing.**
  - `new Date(value)` and `Date.parse` are a parameter `parse: string -> JsDate`, with a validity flag; `parseDate`, `parseOptionalDate` and `toDateInput` use it.
  - ISO rendering (`toISOString`) is computed. It throws `Invalid time value` outside the representable range.
  - `value-objects/birthdate/birthdate.ts` is not part of this model.
- **Number semantics.**
  - Numbers are exact reals with `NaN` and the infinities. Rounding of IEEE-754 doubles is not modelled.
  - `Js.ParseInt` reads the leading decimal digits exactly. It does not model a very long digit string overflowing to a large double or `Infinity`.
- **String semantics.**
  - `Text.ToLower`: lowercases ASCII letters only, not the full Unicode mapping of `toLowerCase`.
  - Trimming uses JavaScript's whitespace set; there is no Unicode normalisation.
- **Null and undefined.** `Validators.TrimmedText`: `toNullableString` and `toOptionalString` share one model. "Nothing" is `None`, whether the source returns `null` or `undefined`; each caller puts back the one it needs.
- **Event log payload copy.** The `JSON.parse(JSON.stringify(...))` copy is the identity on the JSON values events carry; non-JSON payload values are not modelled.
- **Event handlers.** Handlers are opaque ids whose only effect is the delivery trace. Whether a handler throws is an oracle `fails`, except the log's own handler, whose failure is derived from the event's time.
- **Asynchrony.** Interleaving of concurrent `runInTransaction` calls and async scheduling is not modelled; every call runs to completion in turn. A nested `runInTransaction` inside a running one is not modelled.
- **Database.**
  - Prisma's filtering, ordering (`orderBy: fullName`), skip and take stay behind the `findMany` and `count` parameters of the search query.
  - `SearchMembersQuery.Filter` and `Window` give a reference table to state paging against. Case-insensitive `contains` is `Matches`'s own predicate.
  - `prisma-get-member-by-id.query.ts`, `hero.query.prisma.ts` and the member delegate are not part of this model.
- **Cache.** Cache invalidation (`invalidateMembersCache`, `revalidatePath`) after the register and update actions is not modelled; it changes no state the model holds.
- **Thin actions.** The level-up, archive, restore, change-classification, get-member-by-id and list-heroes actions only call the container. The use cases behind them are modelled; the actions are not.
- **Form builders.** `MemberFormAdapters.BuildRegisterMemberInput` and `BuildUpdateMemberInput` produce the action input records as the actions read them. The serialisation of the object across the server-action boundary is not modelled.
- **React.** Rendering, hooks, `useSearchMembers`, `useEffect` re-merging of `initialValues`, and the field change handlers are not modelled. `MemberForm.MemberFormState` holds the form's state, and `MembersPage` holds the page's pure helpers.
- **Wiring.** Dependency-injection wiring and the service tokens are not modelled; use cases receive their unit of work and repositories directly.
- **Error texts not in the source files.** `hero.error-codes.ts`, `email.error-codes.ts` and Prisma's own messages are not part of this model. So the hero `INVALID_NAME` message, the email `INVALID_RAW` message and the message of Prisma's error for deleting a missing row are placeholder texts; only their identity matters to the proofs. The timeout of Prisma's interactive transactions is not modelled either: a work always runs to its end.
- **Query string.** `MembersPage.Params` holds one value per key. `URLSearchParams` keeps repeated keys in order, `get` returns the first value, and `set` and `delete` act on every copy. The page only reads and writes single-valued keys, so a URL carrying a key twice is not modelled.
- MemberFormAdapters.MemberViewToFormValues: a `MemberView` here carries every required string and the classification, so the `?? ''` and `?? base.classification` fallbacks of `member-form-adapters.ts` on those fields never apply; only the optional address parts use the `''` fallback.
