# Ampeli member service, modelled in Dafny

Ampeli is a Django front end for a church's member database. It talks to a
remote Ampeli API. This project models its decision logic and proves what it
does:

- **Authentication** (`AuthService`). `register_user` and `login_user` run
  ordered local checks:
  - required fields, giving `VALIDATION_ERROR`;
  - an email that must contain both `@` and `.`, giving `INVALID_EMAIL`;
  - for registration, a password of at least 6 characters, giving
    `WEAK_PASSWORD`.

  Only when every check passes do they make one remote call. A call that
  raises has its error text classified by an ordered first-match chain:
  status digits are matched on the raw text, phrases on the lower-cased
  text, and anything else is `CONNECTION_ERROR`. The remote call is a
  parameter: a function from the posted JSON body to either the decoded
  body or the text of the exception it raised. Each operation returns the
  body it posted (or `None` when it made no call) together with its result
  dictionary.
- **Member data helpers** (`MemberData`):
  - `format_member_data_for_api` copies 21 form fields under the API's names, nests the user id
    and joins the available days and times with `" - "`;
  - `validate_member_data`, including the `TypeError` that `'@' in email`
    raises on a truthy int, bool or date (on a dictionary it tests the keys);
  - `format_date_for_api`, with the ISO `full-date` of section 5.6 of
    RFC 3339 for dates, and the `AttributeError` on a truthy value that is
    neither a string nor a date;
  - `parse_api_response_error`.

  Python values are a small universe: `None`, bool, int, str, date and
  string-keyed dictionaries. A form's values are the scalars only. Python truthiness, `dict.get` and `str()` are
  written out (`Values`).
- **Models** (`Models`):
  - the nine closed choice lists, with their stored codes and the proof
    that each code reads back as its value;
  - the defaults of `Member` and the other records;
  - `Member.age` on an explicit `today`, characterised as the unique number
    of years whose anniversary has been reached but whose next one has not;
  - the three uniqueness constraints as table invariants that every
    accepted insert or update preserves, and that an `IntegrityError`
    refuses exactly when they would break.
- **Analytics age ranges** (`Views`). The loop of the analytics page starts
  six counters at zero. For each member with a birth date it adds one to the
  counter of the first range whose upper bound the age does not exceed.

  It is an imperative method proved equal to a reference distribution: each
  range's count of ages. Lemmas prove:
  - the ranges partition the integers;
  - the counts add up to the number of members with a birth date;
  - each step adds one to exactly one counter;
  - counts never decrease as more ages are counted;
  - a birth date in the future gives a negative age, counted in `0-17`.

  The upper range is labelled `65+` but, as the chain is written, holds ages
  above 65 only: 65 itself is counted in `51-65`.

Shared pieces:
- `Text`: substring search, ASCII lower-casing and decimal numerals.
- `Calendar`: proleptic Gregorian dates, their order and anniversaries, and
  the ISO date format, proved injective.

## Model

| member | source | states |
|---|---|---|
| AuthService.FirstMatch | ampeli/members/services.py:88-117 | the chosen branch matches, every earlier branch does not, and no branch matches when none is chosen |
| AuthService.RegisterClassification | ampeli/members/services.py:88-117 | register's error code is USER_EXISTS, INVALID_DATA, SERVICE_UNAVAILABLE, SERVER_ERROR or CONNECTION_ERROR exactly when that branch's test holds and every earlier one fails (both directions) |
| AuthService.LoginClassification | ampeli/members/services.py:154-189 | login's error code is INVALID_CREDENTIALS, USER_NOT_FOUND, RATE_LIMITED, SERVICE_UNAVAILABLE, SERVER_ERROR or CONNECTION_ERROR exactly when that branch's test holds and every earlier one fails |
| AuthService.ClassificationRanges | ampeli/members/services.py:84-117 | every failure text gets one of the handler's codes, never a code of a local check |
| AuthService.RegisterPayload | ampeli/members/services.py:68-74 | the posted body has name, email and password, and a phone key exactly when a non-empty phone was given |
| AuthService.RegisterUser | ampeli/members/services.py:43-117 | the remote call is made exactly when all local checks pass, with the payload above; a call that returned gives success with the body's `user` and `token`, a call that raised gives the classification of its text; with no call, the result is a failure with a local code |
| AuthService.RegisterCheckOrder | ampeli/members/services.py:47-66 | VALIDATION_ERROR exactly when a field is missing; INVALID_EMAIL exactly when the fields are present and the email lacks `@` or `.`; WEAK_PASSWORD exactly when both pass and the password is shorter than 6 |
| AuthService.RegisterRejectsLocally | ampeli/members/services.py:47-66 | when a local check fails, the result does not depend on the remote call |
| AuthService.LoginPayload | ampeli/members/services.py:137-140 | the posted body has exactly the email and the password |
| AuthService.LoginUser | ampeli/members/services.py:119-189 | as for registration, with no name and no password length: the call is made exactly when the checks pass, a returned call gives success with the body's `user` and `token`, a raised one the login classification of its text, and WEAK_PASSWORD never occurs |
| AuthService.LoginCheckOrder | ampeli/members/services.py:123-135 | VALIDATION_ERROR exactly when email or password is missing; INVALID_EMAIL exactly when both are present and the email lacks `@` or `.` |
| AuthService.LoginRejectsLocally | ampeli/members/services.py:123-135 | when a local check fails, the result does not depend on the remote call |
| AuthService.SuccessDefaults | ampeli/members/services.py:76-82 | on success, `user` and `token` are the body's values, or `{}` and `''` when the body lacks them |
| AuthService.ClassifiedMessagesDescriptive | ampeli/members/services.py:88-117 | every message a classified failure returns is longer than ten characters |
| AuthService.RegisterResultDescriptive | ampeli/members/services.py:43-117 | every result of registration, whatever the inputs and the remote outcome, has a `success` key and a message longer than ten characters |
| AuthService.LoginResultDescriptive | ampeli/members/services.py:119-189 | every result of login, whatever the inputs and the remote outcome, has a `success` key and a message longer than ten characters |
| Text.HasSubstringIffOccurs | ampeli/members/services.py:88 | Python's `pat in s`, as the classification chains of register (line 88 on) and login (line 154 on) use it, holds exactly when `pat` occurs at some index of `s` |
| Text.Lower | ampeli/members/services.py:88 | the lower-cased text has the same length and no upper-case ASCII letter; exactly the upper-case letters change, each to its lower-case counterpart |
| Text.LowerIdempotent | ampeli/members/services.py:88 | lower-casing twice is lower-casing once |
| Text.IntToString | ampeli/members/services.py:400 | `str(i)` is the decimal numeral of `i`, non-empty and without leading zeros, with a leading `-` when negative |
| Text.ZeroPad | ampeli/members/services.py:394 | the padded numeral denotes `n` and has at least `w` digits |
| Calendar.IsoFormatFields | ampeli/members/services.py:394 | the formatted date is ten characters: four year digits, `-`, two month digits, `-`, two day digits, each denoting the date's own field |
| Calendar.IsoFormatInjective | ampeli/members/services.py:394 | two dates with the same text are the same date |
| MemberData.CopiedFieldUnrepeated | ampeli/members/services.py:345-369 | no API name of the copied fields repeats, and none is `user` or `availableDaysTimes` |
| MemberData.CopyFields | ampeli/members/services.py:347-368 | the keys of the copied part are exactly the table's API names |
| MemberData.CopyFieldsLookup | ampeli/members/services.py:347-368 | a field's API name holds its form value, or its default when the form lacks it |
| MemberData.FormatMemberDataForApi | ampeli/members/services.py:343-369 | `user` is `{"id": user_id}` and `availableDaysTimes` is the days, `" - "`, and the times |
| MemberData.FormattedKeys | ampeli/members/services.py:345-369 | the result has exactly the 21 renamed keys plus `user` and `availableDaysTimes` |
| MemberData.CopiedFieldRenamed | ampeli/members/services.py:347-368 | each of the 21 copied fields reaches the API under its new name with the form's value or its default |
| MemberData.VolunteerAreasSentTwice | ampeli/members/services.py:357-359 | `interestAreas` and `volunteerArea` both carry `volunteer_areas` |
| MemberData.ValidateMemberData | ampeli/members/services.py:371-384 | true exactly when `fullName` and `email` are truthy and the email contains `@` and `.`; raises exactly when both are truthy and the email is a scalar that is not a string |
| MemberData.ValidateFormatted | ampeli/members/services.py:343-384 | on formatted data, validation accepts exactly a truthy full name with a non-empty, well-shaped email string, and raises exactly when the full name is truthy and the email is a truthy value that is not a string |
| MemberData.FormatDateForApi | ampeli/members/services.py:386-394 | falsy input gives `''`, strings are returned unchanged, dates give their ISO text, and anything else raises |
| MemberData.FormatDateIdempotent | ampeli/members/services.py:386-394 | formatting the formatter's output changes nothing |
| MemberData.ParseApiResponseError | ampeli/members/services.py:396-400 | a dictionary gives its `message`, else its `error`, else `Erro desconhecido`; anything else gives `str()` of it |
| MemberData.ParseErrorReadsResult | ampeli/members/services.py:396-400 | on any result dictionary of the authentication operations, the parser returns that result's message |
| Models.Parse | ampeli/members/models.py:12-18 | a code reads back as a listed value with that code, or as nothing when no value has it |
| Models.ParseCode | ampeli/members/models.py:12-18 | in a choice list with distinct codes, every value's code reads back as that value |
| Models.MaritalStatusChoices | ampeli/members/models.py:12-18 | the list holds every marital status, with distinct codes |
| Models.MemberStatusChoices | ampeli/members/models.py:26-31 | the list holds every member status, with distinct codes |
| Models.ContactPreferenceChoices | ampeli/members/models.py:37-42 | the list holds every contact preference, with distinct codes |
| Models.ChurchDiscoveryChoices | ampeli/members/models.py:44-51 | the list holds every way of finding the church, with distinct codes |
| Models.EventPreferenceChoices | ampeli/members/models.py:53-57 | the list holds every event preference, with distinct codes |
| Models.FaithStageChoices | ampeli/members/models.py:84-89 | the list holds every faith stage, with distinct codes |
| Models.GroupTypeChoices | ampeli/members/models.py:144-149 | the list holds every group type, with distinct codes |
| Models.RoleChoices | ampeli/members/models.py:166-171 | the list holds every role, with distinct codes |
| Models.EventTypeChoices | ampeli/members/models.py:190-195 | the list holds every event type, with distinct codes |
| Models.MemberStatusCodes | ampeli/members/models.py:26-32 | a member status is stored as one of active, inactive, visitor and new, and reads back as itself |
| Models.MemberStatusParse | ampeli/members/models.py:26-32 | a stored status is accepted exactly when it is one of the four codes |
| Models.NewMember | ampeli/members/models.py:9-93 | a new member has status visitor, event preference presential, engagement score 0, open to new groups, the boolean flags false, the blank choice, date and timestamp fields (`last_activity` among them) `None`, and every blank text field `''` |
| Models.NewMemberInterest | ampeli/members/models.py:131-133 | a new interest has level 1 |
| Models.NewGroup | ampeli/members/models.py:143-152 | a new group is active with an empty description |
| Models.NewParticipation | ampeli/members/models.py:164-175 | a new participation has role member, is current and has no end date |
| Models.NewAttendance | ampeli/members/models.py:187-197 | a new attendance record is marked attended |
| Models.Age | ampeli/members/models.py:108-113 | no age exactly when there is no birth date; otherwise the age-th anniversary is on or before today and the next is after it |
| Models.AnniversaryOrder | ampeli/members/models.py:112 | anniversaries follow each other in calendar order |
| Models.AgeUnique | ampeli/members/models.py:108-113 | only one number of years fits that characterisation, so it determines the age |
| Models.AgeNonNegative | ampeli/members/models.py:112 | someone born on or before today has an age of at least 0 |
| Models.AgeOnAnniversary | ampeli/members/models.py:112 | on the birthday itself the age is exactly the difference of the years |
| Models.AgeMonotone | ampeli/members/models.py:112 | a later day never gives a smaller age |
| Models.IndexOfKey | ampeli/members/models.py:96 | the first row carrying the key, or none when no row carries it |
| Models.Insert | ampeli/members/models.py:96 | an insert is refused exactly when its key is taken; otherwise the row is appended and keys stay unique |
| Models.Update | ampeli/members/models.py:96 | an update is refused exactly when another row has the new key; otherwise that row alone changes and keys stay unique |
| Models.AddMember | ampeli/members/models.py:96 | creating a member is refused exactly when its `inchurch_id` is taken, and preserves every uniqueness rule |
| Models.SaveMember | ampeli/members/models.py:96 | saving a member is refused exactly when another member has its `inchurch_id`, and preserves every uniqueness rule |
| Models.AddInterest | ampeli/members/models.py:136 | adding an interest is refused exactly when the (member, interest area) pair exists, and preserves every uniqueness rule |
| Models.RecordAttendance | ampeli/members/models.py:202 | recording attendance is refused exactly when the (member, event name, event date) triple exists, and preserves every uniqueness rule |
| Views.RangeOf | ampeli/members/views.py:204-215 | the range the chain picks covers the age |
| Views.RangesPartition | ampeli/members/views.py:204-215 | an age lies in a range exactly when that range is the one the chain picks |
| Views.LabelsDistinct | ampeli/members/views.py:197-199 | the six ranges have six distinct keys, all of them dictionary keys |
| Views.WithBirthDate | ampeli/members/views.py:201 | a member is kept exactly when it is given and has a birth date, and the result is no longer than the input |
| Views.WithBirthDateCounts | ampeli/members/views.py:201 | the filter keeps each member with a birth date as many times as it occurs, and no other member |
| Views.AgesOf | ampeli/members/views.py:201-203 | one age per member that has one, never more ages than members |
| Views.AgesOfStep | ampeli/members/views.py:202-203 | one more member adds its age when it has one, and nothing otherwise |
| Views.AgesOfWithBirthDate | ampeli/members/views.py:201-203 | every filtered member contributes an age |
| Views.Tally | ampeli/members/views.py:204-215 | a range's count is at most the number of ages |
| Views.TallyTotal | ampeli/members/views.py:204-215 | every age is counted in exactly one range: the six counts add up to the number of ages |
| Views.TallyGrows | ampeli/members/views.py:201-215 | counting more ages never lowers a count |
| Views.AllRangesComplete | ampeli/members/views.py:197-199 | the six ranges are all there are |
| Views.Distribution | ampeli/members/views.py:197-215 | exactly the six ranges are keys, each holding the number of ages in that range |
| Views.DistributionEmpty | ampeli/members/views.py:197-199 | with no ages every counter is 0 |
| Views.DistributionStep | ampeli/members/views.py:204-215 | one more age adds one to its range's counter and leaves the others alone |
| Views.CountStep | ampeli/members/views.py:201-215 | one pass of the loop body keeps the counters equal to the distribution of the ages seen so far |
| Views.FutureBirthCountsAsMinor | ampeli/members/views.py:204-205 | a birth date after today gives a negative age, counted in `0-17` |
| Views.AddToRange | ampeli/members/views.py:204-215 | the chain adds one to the counter of the age's range and changes nothing else |
| Views.CountAgeRanges | ampeli/members/views.py:197-215 | the loop's counters equal the distribution of the ages of the members with a birth date |
| Views.CountAgeRangesTotal | ampeli/members/views.py:197-215 | after the loop exactly the six counters exist, and they add up to the number of members with a birth date |

## Left out

- `_make_request` and HTTP are left out. The remote call is a parameter that returns either the decoded body or the text of the exception raised, which is the text the handlers classify. A JSON body that is not an object is not modelled, so the `AttributeError` that `.get` would raise on it, and its classification, are absent.
- Every other method of `AmpeliAPIService` is a pass-through HTTP call and is not part of this model. These include the user and member endpoints, recommendations, `check_email_availability` and the health check.
- `InChurchAPIService` (the member sync and engagement score) is not part of this model.
- Django plumbing is not part of this model: the views other than the age loop, `api_auth_views.py`, `auth_views.py`, `admin.py`, `urls.py`, and the form widgets and the `save` override in `forms.py`.
- `timezone.now()` is not modelled. `Models.Age` and `Views.CountAgeRanges` take `today` as a parameter. The page reads the clock again for every member's `age`, so `Views.CountAgeRanges`, which uses one `today` for the whole loop, differs from it only when the loop runs past midnight.
- Text.Lower: folds only ASCII `A`–`Z`, not Python's full Unicode `str.lower()`. The classification only looks for the fixed phrases `conflict`, `bad request`, `service unavailable`, `internal server error`, `unauthorized`, `not found` and `too many requests`. Only two non-ASCII characters lower to text with ASCII letters. The Kelvin sign lowers to `k`, and no phrase contains `k`. The dotted capital `İ` lowers to `i` followed by a combining dot, and no phrase ends in `i`. So the phrase matches come out the same.
- Calendar.IsoFormatFields: always pads the year to four digits, as `date.isoformat()` does. Some C libraries' `strftime('%Y')` does not pad years below 1000.
- Only these argument types are modelled: `str` or `None` for the authentication arguments, and `None`, bool, int, str and date for the values of a form. Dictionaries are modelled only as arguments of `validate_member_data`, `format_date_for_api` and `parse_api_response_error` and inside the remote body, so a form value that is itself a dictionary, which the f-string of `availableDaysTimes` would write as `{...}`, is not modelled. Lists and floats are not modelled.
- `created_at` and `updated_at` (set by Django on save through `auto_now_add` and `auto_now`) are not modelled. `last_activity` is a nullable timestamp that nothing sets automatically; it is modelled, and `None` on a new member. Neither are the `verbose_name` display labels, the display labels of the choices (`'Solteiro(a)'` and the others, which `get_*_display` returns), the `__str__` methods and the `max_length` limits.
- Foreign keys are row numbers (`nat`). Cascading deletes are not modelled.
- Views.CountAgeRanges: the dictionary is keyed by `AgeRange` rather than by its label string. `Views.LabelsDistinct` proves that each range has its own label, which is the dictionary key in the page, so the two dictionaries correspond one to one.
- The other analytics (status counts, monthly engagement) and the rendering of the page are not part of this model.
