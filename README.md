# Delivery notifications, modelled in Dafny

This project models the delivery-notification pipeline of a small NestJS
backend. Given a user id, `DeliveryService` checks the id's shape and finds the
user in a read-only directory. From the user's active cats it then builds four
things:

- a title;
- a message;
- a total pouch price;
- a free-gift flag.

`DeliveryController` validates the id again, calls the service, and turns a
falsy service result into not-found.

Files:

- `user_id.dfy` (module `UserId`): the 8-4-4-4-12 lowercase-hex id shape.
  It is written as an anchored matcher over hex groups and proved equal to a
  position-by-position description.
- `delivery_service.dfy` (module `DeliveryService`): users and cats, the
  lookup, the filter and map over cats, the English list of names, the title
  and message templates, the price table and fold, the threshold and the
  assembler.
- `delivery_controller.dfy` (module `DeliveryController`): the controller.
  It is a function of the id and of a service behaviour
  (`string -> ServiceOutcome`): throw one of the two failures, return a falsy
  value, or return a notification. `Wired` plugs in the service model.
- `delivery_examples.dfy` (module `DeliveryExamples`): the cases of the unit
  tests, proved: ids, name lists, totals and two complete notifications.

Modelling choices:

- The directory is the parameter `data: seq<User>` of every service operation.
  The source's `data` field is assigned once and then only read.
- The two exceptions become `Fail(BadRequest)` and `Fail(NotFound)` of
  `Result`. Dafny's `:-` propagates them the way the thrown exceptions
  propagate through the helpers.
- Prices are exact integer cents: 55.50 is 5550 and the threshold 120 is
  12000.
- The source has two identical copies of the id check, one in each class.
  The model defines it once (`UserId.IsValidUserId`) and both modules use it.

Behaviour of the code worth knowing, which the model follows:

- With no active cat, `formatActiveCatNames` returns the sentinel
  "No active cats". The title and message embed it in their templates, so the
  title is "Your next delivery for No active cats" (`TitleDecomposes`).
- Some unit tests expect `undefined` or `null` (delivery.service.spec.ts:37-46,
  71-74, 91-94). The code behaves differently:
  - `getUserDataById` throws `BadRequestException` for an invalid id;
  - `formatActiveCatNames` returns "No active cats" for a user with no active cats;
  - `createTitle` and `createMessage` return their templates with that
    sentinel inside.

## Model

| member | source | states |
|---|---|---|
| `UserId.IsValidUserId` | src/comms/delivery.service.ts:34-38 | no contract of its own; the anchored group matcher of the pattern, characterised by `ValidUserIdIff` |
| `UserId.ValidUserIdIff` | src/comms/delivery.service.ts:34-38 | the id test holds iff the length is 36, positions 8, 13, 18 and 23 are '-', and every other character is in 0-9a-f |
| `UserId.UppercaseRejected` | src/comms/delivery.service.ts:36 | an uppercase hex digit outside the hyphen positions makes the id invalid |
| `UserId.ValidUserIdLength` | src/comms/delivery.service.ts:36 | a valid id has exactly 36 characters, with hyphens at 8, 13, 18 and 23 |
| `UserId.ValidFromGroups` | src/comms/delivery.service.ts:36 | five lowercase-hex groups of widths 8, 4, 4, 4 and 12, joined by '-', always form a valid id |
| `DeliveryService.FirstMatch` | src/comms/delivery.service.ts:46 | `find` gives the first index whose user has the id; every earlier user has another id |
| `DeliveryService.GetUserDataById` | src/comms/delivery.service.ts:41-51 | BadRequest iff the id is malformed; NotFound iff the id is well-formed and no user has it; otherwise the first user in directory order with that id |
| `DeliveryService.BadRequestIgnoresDirectory` | src/comms/delivery.service.ts:42-44 | a malformed id gives BadRequest whatever the directory holds |
| `DeliveryService.LookupFindsUniqueUser` | src/comms/delivery.service.ts:46-50 | when ids are unique, looking up a user's valid id returns that user |
| `DeliveryService.ActiveCats` | src/comms/delivery.service.ts:57-58 | the filter keeps exactly the active cats and never grows the list |
| `DeliveryService.Names` | src/comms/delivery.service.ts:59 | the map has one entry per cat, and entry i is cat i's name |
| `DeliveryService.PouchSizes` | src/comms/delivery.service.ts:92 | the map has one entry per cat, and entry i is cat i's pouch size |
| `DeliveryService.ActiveCatNames` | src/comms/delivery.service.ts:57-59 | one name per active cat, never more than there are cats |
| `DeliveryService.ActiveCatNamesMembers` | src/comms/delivery.service.ts:57-59 | every listed name is the name of an active cat, and every active cat's name is listed |
| `DeliveryService.ActivePouchSizes` | src/comms/delivery.service.ts:90-92 | one size per active cat, never more than there are cats |
| `DeliveryService.ActiveCatsAppend` | src/comms/delivery.service.ts:58 | filtering distributes over concatenation, so the original order is kept |
| `DeliveryService.InactiveCatDropped` | src/comms/delivery.service.ts:58 | inserting an inactive cat anywhere does not change the filtered list |
| `DeliveryService.InactiveCatIgnored` | src/comms/delivery.service.ts:57-59 | an inactive cat changes neither the active names nor the active pouch sizes |
| `DeliveryService.Join` | src/comms/delivery.service.ts:68 | no contract of its own; `Array.prototype.join`, characterised by `JoinSnoc` |
| `DeliveryService.FormatNames` | src/comms/delivery.service.ts:61-68 | no contract of its own; the list construction, characterised by `FormatNamesIsEnglishList`, `FormatNamesSnoc` and `FormatActiveCatNamesCases` |
| `DeliveryService.JoinSnoc` | src/comms/delivery.service.ts:68 | `join` of one more part appends the separator and that part |
| `DeliveryService.FormatNamesIsEnglishList` | src/comms/delivery.service.ts:66-68 | the slice-join-" and "-last construction equals the English list "a", "a and b", "a, b and c" with no Oxford comma |
| `DeliveryService.FormatNamesSnoc` | src/comms/delivery.service.ts:66-68 | appending a name to one or more joins all the old names with ", " and then " and " the new one |
| `DeliveryService.FormatActiveCatNames` | src/comms/delivery.service.ts:54-55 | fails iff the lookup fails, with the same error |
| `DeliveryService.FormatActiveCatNamesCases` | src/comms/delivery.service.ts:54-69 | for a resolved user with active names N: "No active cats" if N is empty, N[0] if it has one name, else join(N without its last, ", ") + " and " + its last, which is the English list of N |
| `DeliveryService.CreateTitle` | src/comms/delivery.service.ts:72-76 | fails iff the lookup fails, with the lookup's own BadRequest or NotFound |
| `DeliveryService.TitleDecomposes` | src/comms/delivery.service.ts:75 | the title is "Your next delivery for " followed by exactly the formatted names, and is "Your next delivery for No active cats" when no cat is active |
| `DeliveryService.CreateMessage` | src/comms/delivery.service.ts:79-82 | fails iff the lookup fails, with the lookup's own BadRequest or NotFound |
| `DeliveryService.MessageDecomposes` | src/comms/delivery.service.ts:84 | the message splits into "Hey ", the first name, the fixed middle text, the formatted names and "'s fresh food.", in that order |
| `DeliveryService.PouchPrice` | src/comms/delivery.service.ts:94-105 | a size in the table costs between 55.50 and 71.25; any other size costs 0 |
| `DeliveryService.ReducePrices` | src/comms/delivery.service.ts:104-107 | the `reduce` fold adds between 0 and 71.25 per size to its initial total |
| `DeliveryService.ReduceIsSum` | src/comms/delivery.service.ts:104-107 | the left fold from an initial total equals that total plus the plain sum of the table prices |
| `DeliveryService.PriceSumAppend` | src/comms/delivery.service.ts:104-107 | the price sum of a concatenation is the sum of the two price sums |
| `DeliveryService.PriceSumBound` | src/comms/delivery.service.ts:94-101 | a price sum is at most 71.25 times the number of sizes |
| `DeliveryService.CalculateTotalPrice` | src/comms/delivery.service.ts:88-89 | fails iff the lookup fails, with the lookup's own BadRequest or NotFound |
| `DeliveryService.TotalPriceSpec` | src/comms/delivery.service.ts:88-108 | for a resolved user the total is the sum of the prices of the active cats' sizes; it is 0 with no active cat and at most 71.25 per active cat |
| `DeliveryService.TotalPriceSnoc` | src/comms/delivery.service.ts:90-107 | adding a cat adds its price if it is active and nothing otherwise |
| `DeliveryService.IsEligibleForFreeGift` | src/comms/delivery.service.ts:110-115 | fails iff the lookup fails, with the lookup's own failure; otherwise true iff the total is strictly above 120.00 |
| `DeliveryService.TotalKinds` | src/comms/delivery.service.ts:94-107 | every total is 0, one table price, a sum of two table prices, or at least 166.50 |
| `DeliveryService.TotalNeverAtThreshold` | src/comms/delivery.service.ts:114 | no list of pouches costs exactly 120.00, so `>` and `>=` decide alike |
| `DeliveryService.FreeGiftNeedsTwoActiveCats` | src/comms/delivery.service.ts:110-115 | a user who earns the free gift has at least two active cats |
| `DeliveryService.GenerateUserDeliveryComms` | src/comms/delivery.service.ts:117-127 | fails iff the lookup fails, with the same error and no partial record; on success the four fields are the four helpers applied to the same id |
| `DeliveryService.CommsConsistent` | src/comms/delivery.service.ts:117-127 | in one notification the flag is the threshold test of its total, the total is the active price sum, and title and message embed the same formatted names and the user's first name |
| `DeliveryController.GetUserDeliveryComms` | src/comms/delivery.controller.ts:22-37 | malformed id gives BadRequest; otherwise a thrown service error propagates, a falsy result gives NotFound, and a returned object comes back unchanged |
| `DeliveryController.InvalidIdSkipsService` | src/comms/delivery.controller.ts:23-25 | for a malformed id the result is BadRequest whatever the service would do |
| `DeliveryController.ValidIdPassedUnchanged` | src/comms/delivery.controller.ts:28 | for a well-formed id only the service's answer for that same id matters |
| `DeliveryController.Wired` | src/comms/delivery.controller.ts:28 | the service as the controller sees it never answers falsy, and throws exactly when the lookup fails, with the lookup's failure |
| `DeliveryController.ControllerOverService` | src/comms/delivery.controller.ts:15-36 | over the real service the controller returns exactly what the service returns, and the falsy branch is never taken: BadRequest iff the id is malformed, NotFound iff it is well-formed and absent |
| `DeliveryExamples.SampleIds` | src/comms/delivery.service.spec.ts:6-11 | all five test ids are well-formed, "!@#" is not, and the uppercase version of a valid id is not |
| `DeliveryExamples.SampleNameLists` | src/comms/delivery.service.spec.ts:49-66 | "Betsy", "Willie and Chaz", "Cristina, Mariah and Rebekah"; an inactive cat between two active ones is left out, giving "Destiny and Alexandre" |
| `DeliveryExamples.SampleTotals` | src/comms/delivery.service.spec.ts:120-129 | 69.00 for size E, 125.50 for two size C, 197.50 for sizes B, E and E, exact mixed sums, 0 for an unknown size |
| `DeliveryExamples.CordellNotification` | src/comms/delivery.controller.spec.ts:26-32 | Betsy (E) gives "Your next delivery for Betsy", the matching message, 69.00 and no gift |
| `DeliveryExamples.HermanNotification` | src/comms/delivery.service.spec.ts:150-159 | Willie and Chaz give "Your next delivery for Willie and Chaz", the matching message, 125.50 and the gift |
| `DeliveryExamples.UnknownUserNotFound` | src/comms/delivery.controller.spec.ts:45-58 | a well-formed unknown id is NotFound and "!@#" is BadRequest, through the service and through the controller |

## Left out

- Loading `data.json` with `fs.readFileSync` and `JSON.parse` in the service constructor (src/comms/delivery.service.ts:28-31). The file is I/O, so the directory is a parameter. `data.json` is not part of this model. The example directory in `delivery_examples.dfy` is made up. Its size codes were chosen to give the totals the tests expect (two size-C pouches for 125.50).
- NestJS decorators, dependency injection and HTTP routing: `@Controller`, `@Get`, `@Param`, `@Injectable`, and the mapping of exceptions to status codes 400 and 404. These are framework behaviour.
- The message text inside the exceptions. It is an opaque payload that no caller inspects.
- src/app.module.ts: module wiring only, with no logic.
- JavaScript binary floating point. Every table price is a multiple of 0.25, so the source's sums are exact for any realistic number of cats. The model uses exact integer cents instead of floats.
- The regular-expression engine. The pattern is anchored, character-class-only and ASCII. It is modelled as an explicit matcher over groups (`MatchesGroups`). JavaScript strings count UTF-16 code units while Dafny counts characters, but that only matters for strings the pattern rejects in both.
- PouchPrice: the source looks up sizes in a plain object literal. There, a size such as "constructor" or "toString" finds an inherited, truthy non-number, and the `+` then concatenates strings. The model gives every size outside A–F the price 0, which is what `|| 0` is there for.
- GetUserDeliveryComms: the controller passes through any exception the service throws and returns any truthy value. The model's `ServiceOutcome` covers only the two failures of the model and a `Comms` record, which is everything the service can produce.
- The test expectations of `undefined`/`null` (delivery.service.spec.ts:37-46, 71-74, 91-94). They contradict the code.
- The fields `breed`, `lastName` and `email`. They are carried in the datatypes but play no part in any operation.
