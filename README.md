# Lab7 ticket service — a verified Dafny model

Lab7 is a client/server application for a shared collection of theatre tickets.
A client reads a command line from the console or from a script. It turns the
line into a request: a command name, the packaged arguments, an optional ticket,
the user's credentials and a request id. It sends the request over UDP and waits
for the response that carries the same id. The server dispatches each request
to a command handler. The handler checks the credentials and the body shape,
then runs an operation on the in-memory ticket deque or the id allocator and
turns the result into a response.

This project models that core in Dafny:

- the data model: tickets with their nested coordinates, person and location,
  ticket types, credentials, and 32-bit ids (`data.dfy`, `errors.dfy`, `wrappers.dfy`);
- the id allocator with its wrap-around counter (`id_manager.dfy`);
- the ticket validator (`validator.dfy`);
- the three ticket comparators, with the ordering laws proved for them (`comparators.dfy`);
- the server's collection manager: a class over a `seq` deque whose methods are
  proved against specification functions (`collection.dfy`);
- the whitespace handling, integer parsing and enum parsing the command layer uses (`text.dfy`);
- requests and responses (`network.dfy`);
- the command handlers' `packageBody` checks and `execute` decision procedures (`commands.dfy`);
- the command registry, input-line conversion and dispatch (`command_manager.dfy`);
- the script-nesting stacks (`script_manager.dfy`);
- the client's pending-request table, the receiver loop, the wait with timeout,
  and the console loop's line classification (`client.dfy`).

Java object identity matters in this core: tickets have no `equals`, so
`contains` and `remove` compare references. A ticket therefore carries a `handle`
that stands for its object identity. The collection's invariant is that no
handle occurs twice. Nullable references are `Option`s, floats are `real`, and
Java `int` is the `int32` newtype, with wrap-around written out where the
source can overflow.

Where the handlers build a response without a request id, the model gives that
response no id (`requestId == None`). The handlers for add_if_max, remove_by_id,
remove_lower, clear, show, filter_by_type and max_by_creation_date build all
their replies without an id. The server loop sends the handler's response as it is
(Lab7/server/src/main/java/server/UDPServer.java:76-79), and the client matches
responses to requests only by `getRequestId()`: a response without an id is
dropped (Lab7/client/src/main/java/client/UDPClient.java:99-103). So those
commands' replies never complete the client's wait, which ends in a timeout
(`Client.PendingTable.ProcessResponse`, `Client.PendingTable.SendRequestWithTimeout`).

The data classes document every ticket id as greater than 0. The validator does
not check that: a complete ticket with id 0 passes it (`Validation.ZeroIdPasses`).
The model keeps the validator as written; ids handed out by the allocator start
at 1.

## Model

| member | source | states |
|---|---|---|
| Data.Wrap32 | Lab7/common/src/main/java/common/managers/IdManager.java:33-35 | the 32-bit two's-complement reading of an integer: in range, and equal to the input modulo 2^32 |
| Data.Ordinal | Lab7/common/src/main/java/common/data/TicketType.java:9-14 | the position of a constant in the declaration, below the number of constants |
| Data.OrdinalIsInjective | Lab7/common/src/main/java/common/data/TicketType.java:9-14 | different constants have different ordinals, so ordinal comparison orders the enum totally |
| Data.TypeName | Lab7/common/src/main/java/common/data/TicketType.java:9-14 | name() of a constant is a non-empty word of upper-case Latin letters |
| Data.CodeUnits | Lab7/common/src/main/java/common/utils/Validator.java:71 | a character is one UTF-16 code unit below U+10000 and a surrogate pair (high surrogate first) above it |
| Data.Utf16 | Lab7/common/src/main/java/common/utils/comparators/TicketComparator.java:32-33 | the code units of a string are at least as many as its characters, and exactly as many when no character lies above U+FFFF |
| Data.JavaLength | Lab7/common/src/main/java/common/utils/Validator.java:71 | String.length() counts code units: never fewer than the characters, equal exactly when none lies above U+FFFF |
| Data.SupplementaryCountsTwice | Lab7/common/src/main/java/common/utils/Validator.java:71 | a string of characters above U+FFFF has twice as many code units as characters |
| Data.CodeUnitsInjective | Lab7/common/src/main/java/common/utils/comparators/TicketComparator.java:32-33 | different characters have different code units |
| Data.Utf16Injective | Lab7/common/src/main/java/common/utils/comparators/TicketComparator.java:32-33 | different strings have different code-unit sequences, so comparing code units loses no distinction |
| Ids.IdManager.constructor | Lab7/common/src/main/java/common/managers/IdManager.java:21 | a new allocator has counter 1 and no recorded ids |
| Ids.IdManager.GetAndIncrement | Lab7/common/src/main/java/common/managers/IdManager.java:33-35 | returns the old counter, moves the counter on by one with 32-bit wrap-around, and records nothing, although its comment says it records |
| Ids.IdManager.IdIsUnique | Lab7/common/src/main/java/common/managers/IdManager.java:46-48 | true exactly when the id is not recorded |
| Ids.IdManager.AddId | Lab7/common/src/main/java/common/managers/IdManager.java:58-61 | records the id and raises the counter to max(counter, id + 1), with id + 1 computed in 32 bits |
| Ids.FreshAllocatorStartsAtOne | Lab7/common/src/main/java/common/managers/IdManager.java:21-35 | a fresh allocator hands out 1 and then 2 |
| Ids.GetRaisesByOne | Lab7/common/src/main/java/common/managers/IdManager.java:33-35 | below the top of the int range the counter rises by exactly one, and the recorded set is unchanged |
| Ids.SuccessiveIdsIncrease | Lab7/common/src/main/java/common/managers/IdManager.java:33-35 | n calls raise the counter by n while no overflow occurs, so successive ids strictly increase |
| Ids.GetWrapsAtTop | Lab7/common/src/main/java/common/managers/IdManager.java:33-35 | at Integer.MAX_VALUE the next counter is Integer.MIN_VALUE |
| Ids.AddRecordsAndRaises | Lab7/common/src/main/java/common/managers/IdManager.java:58-61 | addId records the id and never lowers the counter; the counter ends above the id unless id + 1 overflows, in which case it is unchanged |
| Ids.NextIdExceedsAdded | Lab7/common/src/main/java/common/managers/IdManager.java:58-61 | after recording a list of ids, the counter exceeds each one and the recorded set grows by exactly those ids |
| Validation.ValidatorMatchesDocumentation | Lab7/common/src/main/java/common/utils/Validator.java:22-73 | isValidTicket accepts exactly the tickets with an unrecorded id that meet every documented field constraint (an independent definition), except "id > 0", which it does not check |
| Validation.ValidityIgnoresIdentityAndOwner | Lab7/common/src/main/java/common/utils/Validator.java:22-32 | validity does not depend on object identity or owner |
| Validation.RecordedIdIsInvalid | Lab7/common/src/main/java/common/utils/Validator.java:22-23 | a ticket whose id is recorded is never valid |
| Validation.ValidityIsMonotoneInUsedIds | Lab7/common/src/main/java/common/utils/Validator.java:22-23 | recording more ids can only turn valid tickets invalid |
| Validation.ZeroIdPasses | Lab7/common/src/main/java/common/utils/Validator.java:22-32 | a complete ticket with id 0 passes the validator |
| Validation.IsValidCoordinates | Lab7/common/src/main/java/common/utils/Validator.java:42-44 | valid coordinates have the y the comparator unboxes |
| Validation.IsValidLocation | Lab7/common/src/main/java/common/utils/Validator.java:54-56 | a location is valid exactly when the comparator can read it: absent, or with x, y and z |
| Validation.IsValidPerson | Lab7/common/src/main/java/common/utils/Validator.java:66-73 | a valid present person has a height and a readable location |
| Validation.IsValidTicket | Lab7/common/src/main/java/common/utils/Validator.java:22-32 | a valid ticket has every field the default comparator reads and a creation date |
| Validation.LongCharactersCountTwiceInPassport | Lab7/common/src/main/java/common/utils/Validator.java:71 | fifteen characters above U+FFFF fail the 28-unit passport limit, because length() counts thirty code units |
| Comparators.StringCompareAntisymmetric | Lab7/common/src/main/java/common/utils/comparators/TicketComparator.java:32-33 | String.compareTo negates exactly when its arguments are swapped |
| Comparators.StringCompare | Lab7/common/src/main/java/common/utils/comparators/TicketComparator.java:32-33 | String.compareTo on the UTF-16 code units is 0 exactly for equal strings |
| Comparators.StringCompareTransitive | Lab7/common/src/main/java/common/utils/comparators/TicketComparator.java:32-33 | String.compareTo is transitive, both strictly and non-strictly |
| Comparators.CompareUnits | Lab7/common/src/main/java/common/utils/comparators/TicketComparator.java:32-33 | the lexicographic code-unit comparison is 0 exactly for equal sequences |
| Comparators.CompareUnitsAntisymmetric | Lab7/common/src/main/java/common/utils/comparators/TicketComparator.java:32-33 | swapping the code-unit sequences negates the result |
| Comparators.CompareUnitsTransitive | Lab7/common/src/main/java/common/utils/comparators/TicketComparator.java:32-33 | the code-unit order is transitive, both strictly and non-strictly |
| Comparators.SurrogatesSortBelowPrivateUse | Lab7/common/src/main/java/common/utils/comparators/TicketComparator.java:32-33 | U+10000 sorts below U+E000, by the difference of the surrogate U+D800 and U+E000, because code units and not characters are compared |
| Comparators.CompareCoordinates | Lab7/common/src/main/java/common/utils/comparators/CoordinatesComparator.java:8-13 | orders by x and then by y, and returns 0 only for equal coordinates |
| Comparators.CoordinatesAntisymmetric | Lab7/common/src/main/java/common/utils/comparators/CoordinatesComparator.java:8-13 | swapping the arguments negates the result |
| Comparators.CompareByDate | Lab7/common/src/main/java/common/utils/comparators/TicketByDateComparator.java:27-29 | the sign is calendar order on creation dates (an independent lexicographic definition), and 0 means equal dates |
| Comparators.CompareDates | Lab7/common/src/main/java/common/utils/comparators/TicketByDateComparator.java:27-29 | LocalDate.compareTo is negative exactly for an earlier date, positive exactly for a later one, and 0 exactly for the same date |
| Comparators.ByDateAntisymmetric | Lab7/common/src/main/java/common/utils/comparators/TicketByDateComparator.java:27-29 | swapping the arguments negates the result |
| Comparators.ByDateTransitive | Lab7/common/src/main/java/common/utils/comparators/TicketByDateComparator.java:27-29 | "not earlier than" is transitive |
| Comparators.CompareTicketsReflexive | Lab7/common/src/main/java/common/utils/comparators/TicketComparator.java:31-94 | every ticket compares equal to itself |
| Comparators.CompareTicketsAntisymmetric | Lab7/common/src/main/java/common/utils/comparators/TicketComparator.java:31-94 | swapping the arguments negates the result exactly |
| Comparators.CompareTicketsTransitive | Lab7/common/src/main/java/common/utils/comparators/TicketComparator.java:31-94 | the default order is transitive, both strictly and non-strictly |
| Comparators.KeysEqualIffSameFields | Lab7/common/src/main/java/common/utils/comparators/TicketComparator.java:31-94 | the comparison key of a ticket determines, and is determined by, name, coordinates, price, type and person |
| Comparators.CompareTickets | Lab7/common/src/main/java/common/utils/comparators/TicketComparator.java:31-94 | the result is 0 exactly when all compared fields, nested ones included, are equal |
| Comparators.ComparePersons | Lab7/common/src/main/java/common/utils/comparators/TicketComparator.java:49-90 | a missing person sorts first and a present one after it; the result is 0 exactly for equal persons |
| Comparators.CompareLocations | Lab7/common/src/main/java/common/utils/comparators/TicketComparator.java:71-90 | a missing location sorts first and a present one after it; the result is 0 exactly for equal locations |
| Comparators.TicketsMatchKeys | Lab7/common/src/main/java/common/utils/comparators/TicketComparator.java:31-94 | the clause-by-clause comparator equals the lexicographic order on a fourteen-part key, the independent definition the ordering laws are proved for |
| Comparators.PersonsMatchKeys | Lab7/common/src/main/java/common/utils/comparators/TicketComparator.java:49-90 | the person clauses equal the lexicographic order on the person part of the key |
| Comparators.PresentPersonKeys | Lab7/common/src/main/java/common/utils/comparators/TicketComparator.java:51-90 | for two present persons the key order is height, then weight, then passport and location |
| Comparators.PassportsMatchKeys | Lab7/common/src/main/java/common/utils/comparators/TicketComparator.java:60-69 | the passport clauses (null first, then String.compareTo) equal the key order on the passport part |
| Comparators.LocationsMatchKeys | Lab7/common/src/main/java/common/utils/comparators/TicketComparator.java:71-90 | the location clauses equal the key order on the location part |
| Comparators.CompareKeysZeroIffEqual | Lab7/common/src/main/java/common/utils/comparators/TicketComparator.java:31-94 | the key order is 0 exactly for equal keys |
| Comparators.CompareKeysAntisymmetric | Lab7/common/src/main/java/common/utils/comparators/TicketComparator.java:31-94 | swapping two keys negates the key order |
| Comparators.CompareKeysTransitive | Lab7/common/src/main/java/common/utils/comparators/TicketComparator.java:31-94 | the key order is transitive, both strictly and non-strictly |
| Comparators.CompareIgnoresIdAndDate | Lab7/common/src/main/java/common/utils/comparators/TicketComparator.java:31-94 | id, creation date, identity and owner never influence the result |
| Comparators.NoPersonSortsFirst | Lab7/common/src/main/java/common/utils/comparators/TicketComparator.java:49-50 | with the earlier fields tied, a ticket without a person is strictly smaller than one with a person |
| Comparators.NameDecidesFirst | Lab7/common/src/main/java/common/utils/comparators/TicketComparator.java:32-33 | different names decide the comparison as String.compareTo does |
| Collection.IndexOfId | Lab7/server/src/main/java/server/system/ServerCollectionManager.java:180-186 | the position of the first ticket with the id, or none exactly when no ticket has it |
| Collection.Overwritten | Lab7/server/src/main/java/server/system/ServerCollectionManager.java:199-212 | the updated ticket keeps the identity, id and owner of the stored one, and takes the compared fields and the creation date of the replacement |
| Collection.RemoveFirst | Lab7/server/src/main/java/server/system/ServerCollectionManager.java:225-231 | removing an absent object changes nothing; removing a present one shortens the deque by one and introduces no ticket |
| Collection.Without | Lab7/server/src/main/java/server/system/ServerCollectionManager.java:225-231 | the object is gone and every other object stays |
| Collection.RemoveFirstPastHead | Lab7/server/src/main/java/server/system/ServerCollectionManager.java:225-231 | past a head that is a different object, removal of the first occurrence and of every occurrence still agree |
| Collection.HeadNotInTail | Lab7/server/src/main/java/server/system/ServerCollectionManager.java:225-231 | with distinct objects, the head object does not occur again |
| Collection.ConsDistinct | Lab7/server/src/main/java/server/system/ServerCollectionManager.java:225-231 | putting an object in front of a deque without it keeps the objects distinct |
| Collection.RemoveFirstIsWithout | Lab7/server/src/main/java/server/system/ServerCollectionManager.java:225-231 | with distinct objects, removing the first occurrence removes the object entirely, shortens the deque by one when present, and keeps the objects distinct |
| Collection.WithoutAbsent | Lab7/server/src/main/java/server/system/ServerCollectionManager.java:225-231 | removing an absent object changes nothing |
| Collection.RemoveFirstShrinksHandles | Lab7/server/src/main/java/server/system/ServerCollectionManager.java:225-231 | removal never introduces an object |
| Collection.NotLower | Lab7/server/src/main/java/server/system/ServerCollectionManager.java:338-344 | removeIf with "lower than the given ticket" never lengthens the deque (membership, order and count are the lemmas below) |
| Collection.CountLower | Lab7/common/src/main/java/common/commands/RemoveLowerCommand.java:60-67 | the count of tickets below the given one is at most the deque size, and 0 exactly when no ticket is below it |
| Collection.NotLowerMembers | Lab7/server/src/main/java/server/system/ServerCollectionManager.java:338-344 | a ticket survives exactly when it was present and is not below the given ticket |
| Collection.NotLowerKeepsOrder | Lab7/server/src/main/java/server/system/ServerCollectionManager.java:338-344 | the survivors keep their relative order: the filter distributes over concatenation |
| Collection.NotLowerCount | Lab7/server/src/main/java/server/system/ServerCollectionManager.java:338-344 | the number removed equals the number of tickets below the given one |
| Collection.NotLowerIdempotent | Lab7/server/src/main/java/server/system/ServerCollectionManager.java:338-344 | a second removeLower with the same ticket removes nothing |
| Collection.NotLowerKeepsHandlesDistinct | Lab7/server/src/main/java/server/system/ServerCollectionManager.java:338-344 | removeLower keeps the objects distinct and introduces none |
| Collection.OfTypeMembers | Lab7/server/src/main/java/server/system/ServerCollectionManager.java:305-307 | the filter returns exactly the tickets of the type |
| Collection.OfType | Lab7/server/src/main/java/server/system/ServerCollectionManager.java:305-307 | the filter never lengthens the deque, and every ticket it returns has the type |
| Collection.OfTypeKeepsOrder | Lab7/server/src/main/java/server/system/ServerCollectionManager.java:305-307 | the filter keeps deque order: it distributes over concatenation |
| Collection.OfTypePartition | Lab7/server/src/main/java/server/system/ServerCollectionManager.java:305-307 | the four type filters partition the deque by size |
| Collection.MaxByDate | Lab7/server/src/main/java/server/system/ServerCollectionManager.java:286-292 | the maximum by date is an element of the deque |
| Collection.MaxByDateIsMaximum | Lab7/server/src/main/java/server/system/ServerCollectionManager.java:286-292 | no ticket is created later than the maximum by date |
| Collection.MaxByDateIsFirst | Lab7/server/src/main/java/server/system/ServerCollectionManager.java:291 | among tickets with the latest date, `Stream.max` returns the first in deque order: every ticket before it is strictly earlier |
| Collection.MaxTicket | Lab7/server/src/main/java/server/system/ServerCollectionManager.java:320-322 | the maximum in the default order is an element of the deque |
| Collection.MaxTicketIsMaximum | Lab7/server/src/main/java/server/system/ServerCollectionManager.java:320-322 | no ticket is greater than the maximum in the default order |
| Collection.MaxTicketIsFirst | Lab7/server/src/main/java/server/system/ServerCollectionManager.java:321 | among tickets that compare greatest, `Stream.max` returns the first in deque order: every ticket before it compares strictly less |
| Collection.FillAppendsFreshTickets | Lab7/server/src/main/java/server/system/ServerCollectionManager.java:156-168 | loading keeps the existing tickets in front and appends tickets whose ids were unrecorded, pairwise different, and end up recorded |
| Collection.FillStep | Lab7/server/src/main/java/server/system/ServerCollectionManager.java:158-166 | one ticket is appended exactly when it passes isValidTicket against the recorded ids and is not an object already in the deque, and then its id is recorded by addId; otherwise nothing changes |
| Collection.Fill | Lab7/server/src/main/java/server/system/ServerCollectionManager.java:156-168 | loading keeps the existing tickets in front and appends at most the list |
| Collection.FillDecidesEachTicket | Lab7/server/src/main/java/server/system/ServerCollectionManager.java:156-168 | each ticket of the list, in list order, is appended exactly when it passes the validator against the ids recorded when it is reached and is a new object; a rejected ticket changes nothing |
| Collection.FillAppendsOnlyValid | Lab7/server/src/main/java/server/system/ServerCollectionManager.java:156-168 | every appended ticket passed isValidTicket against the original ids plus those of the tickets appended before it, and was not already in the deque; the recorded ids grow by exactly the appended ids |
| Collection.FillAppendsSubsequence | Lab7/server/src/main/java/server/system/ServerCollectionManager.java:156-168 | what loading appends is the input list with some tickets left out, in list order |
| Collection.FillAcceptsValidList | Lab7/server/src/main/java/server/system/ServerCollectionManager.java:156-168 | a list of new, distinct tickets, each valid against the ids before it, is appended whole and all its ids recorded |
| Collection.ServerCollectionManager.constructor | Lab7/server/src/main/java/server/system/ServerCollectionManager.java:48-53 | a new manager holds an empty deque and shares the given allocator |
| Collection.ServerCollectionManager.ClearCollection | Lab7/server/src/main/java/server/system/ServerCollectionManager.java:120-123 | the deque becomes empty |
| Collection.ServerCollectionManager.AddTicket | Lab7/server/src/main/java/server/system/ServerCollectionManager.java:136-146 | fails exactly for null or an object already present, with the matching WrongArgumentException, and then changes nothing; otherwise appends the ticket and records its id |
| Collection.ServerCollectionManager.FillCollection | Lab7/server/src/main/java/server/system/ServerCollectionManager.java:156-168 | the loop's final deque and allocator are `Fill` of the list, so it appends in list order exactly the tickets that pass the validator when reached (FillDecidesEachTicket, FillAppendsOnlyValid) |
| Collection.ServerCollectionManager.GetById | Lab7/server/src/main/java/server/system/ServerCollectionManager.java:180-186 | the first ticket with the id, or WrongArgumentException exactly when there is none |
| Collection.ServerCollectionManager.UpdateTicket | Lab7/server/src/main/java/server/system/ServerCollectionManager.java:199-212 | overwrites the six editable fields of the first ticket with the id in place, keeping its identity, id and owner; an unknown id changes nothing |
| Collection.ServerCollectionManager.RemoveTicket | Lab7/server/src/main/java/server/system/ServerCollectionManager.java:225-231 | null gives RemoveException and changes nothing; otherwise that object leaves the deque |
| Collection.ServerCollectionManager.RemoveHead | Lab7/server/src/main/java/server/system/ServerCollectionManager.java:245-252 | removes and returns the first ticket; an empty deque gives RemoveException |
| Collection.ServerCollectionManager.RemoveLower | Lab7/server/src/main/java/server/system/ServerCollectionManager.java:338-344 | null gives RemoveException; otherwise exactly the tickets below the given one are removed |
| Collection.ServerCollectionManager.GetMaxByDate | Lab7/server/src/main/java/server/system/ServerCollectionManager.java:286-292 | the first element, in deque order, created no earlier than any other, or EmptyCollectionException exactly on an empty deque |
| Collection.ServerCollectionManager.GetMaxTicket | Lab7/server/src/main/java/server/system/ServerCollectionManager.java:320-322 | the first element, in deque order, no smaller than any other, or null exactly on an empty deque |
| Collection.ServerCollectionManager.GetFilteredByType | Lab7/server/src/main/java/server/system/ServerCollectionManager.java:305-307 | the tickets of that type in deque order, the specification filter that OfTypeMembers and OfTypeKeepsOrder characterise |
| Text.StripTrimHasNoEdgeSpace | Lab7/common/src/main/java/common/managers/CommandManager.java:63 | after strip and trim, the line neither starts nor ends with a regex space |
| Text.Strip | Lab7/common/src/main/java/common/managers/CommandManager.java:63 | strip never lengthens the text, and the result neither starts nor ends with Java whitespace |
| Text.Trim | Lab7/common/src/main/java/common/managers/CommandManager.java:63 | trim never lengthens the text, and the result neither starts nor ends with a character at or below U+0020 |
| Text.TrimIdempotent | Lab7/common/src/main/java/common/managers/CommandManager.java:63 | trim leaves a string alone when no edge character is at or below U+0020 |
| Text.StripIdempotent | Lab7/common/src/main/java/common/managers/CommandManager.java:63 | strip leaves a string alone when neither edge character is whitespace |
| Text.SplitWhitespace | Lab7/common/src/main/java/common/managers/CommandManager.java:67 | split("\\s+") yields pieces without regex spaces whose non-empty ones are exactly the words of the input; only a leading separator gives an empty piece, and text without separators is its own single piece |
| Text.Pieces | Lab7/common/src/main/java/common/managers/CommandManager.java:67 | the pieces between separator runs contain no separator; the first is empty exactly at a leading separator, and inner pieces are never empty |
| Text.PiecesAreWords | Lab7/common/src/main/java/common/managers/CommandManager.java:67 | the non-empty pieces are the words, an independent word-by-word reading of the text |
| Text.WordsAtSeparator | Lab7/common/src/main/java/common/managers/CommandManager.java:63-67 | the words of a text are its first token, then the words after the first separator run |
| Text.SplitTwoAtSingleSpace | Lab7/common/src/main/java/common/managers/CommandManager.java:63 | a token, one space and a rest that does not start with a space split into exactly the token and the rest |
| Text.PiecesOfJoin | Lab7/common/src/main/java/common/managers/CommandManager.java:67 | tokens joined by single spaces split back into the tokens |
| Text.SplitWhitespaceTwo | Lab7/common/src/main/java/common/managers/CommandManager.java:63 | split("\\s+", 2) yields one piece exactly when there is no space; otherwise a first word, a run of spaces and the rest, which together rebuild the input |
| Text.SplitOfJoin | Lab7/common/src/main/java/common/managers/CommandManager.java:67 | splitting words joined by single spaces gives the words back |
| Text.SplitKeepsLeadingEmpty | Lab7/common/src/main/java/common/managers/CommandManager.java:67 | a leading space yields an empty first piece |
| Text.SplitDropsTrailingEmpty | Lab7/common/src/main/java/common/managers/CommandManager.java:67 | a trailing space yields no trailing empty piece |
| Text.SplitOfBlank | Lab7/common/src/main/java/common/managers/CommandManager.java:67 | a lone space splits to nothing, and the empty string to one empty piece |
| Text.ParseInt | Lab7/common/src/main/java/common/commands/RemoveByIdCommand.java:46 | Integer.parseInt succeeds exactly on an optionally signed, non-empty run of decimal digits of any script (Character.digit) whose value lies in int range, with that value; otherwise NumberFormatException with Java's message |
| Text.DigitZeroFrom | Lab7/common/src/main/java/common/commands/RemoveByIdCommand.java:46 | a digit found lies in the run of ten that starts at the returned zero |
| Text.DigitValue | Lab7/common/src/main/java/common/commands/RemoveByIdCommand.java:46 | the value of a decimal digit is below ten |
| Text.AsciiDigits | Lab7/common/src/main/java/common/commands/RemoveByIdCommand.java:46 | 0 to 9 are digits with their usual values |
| Text.ArabicIndicDigitsParse | Lab7/common/src/main/java/common/commands/RemoveByIdCommand.java:46 | Arabic-Indic one and two parse as 12 |
| Text.AccumulateIsValue | Lab7/common/src/main/java/common/commands/RemoveByIdCommand.java:46 | the left-to-right accumulation of digits is their place value |
| Text.AccumulatedLiteral | Lab7/common/src/main/java/common/commands/RemoveByIdCommand.java:46 | the signed accumulated magnitude is the value of the literal |
| Text.IntToString | Lab7/common/src/main/java/common/commands/UpdateCommand.java:75-78 | the decimal text of an int is non-empty and starts with a minus exactly for a negative int |
| Text.ParseIntToString | Lab7/common/src/main/java/common/commands/UpdateCommand.java:75-78 | parsing the decimal text of an int gives the int back |
| Text.ToUpper | Lab7/common/src/main/java/common/commands/FilterByTypeCommand.java:47 | upper-cases character by character |
| Text.UpperChar | Lab7/common/src/main/java/common/commands/FilterByTypeCommand.java:47 | a to z go to A to Z, and only Latin letters, dotless i and long s become A to Z |
| Text.UpperOfName | Lab7/common/src/main/java/common/commands/FilterByTypeCommand.java:47 | upper-casing a type name, as written or in lower case, gives the name |
| Text.ParseTicketType | Lab7/common/src/main/java/common/commands/FilterByTypeCommand.java:47 | valueOf(toUpperCase()) succeeds exactly when the upper-cased text names a constant; otherwise IllegalArgumentException naming it |
| Text.TypeParsingIgnoresCase | Lab7/common/src/main/java/common/commands/FilterByTypeCommand.java:47 | each type's name parses back to it in upper and in lower case |
| Commands.PackageWithoutArguments | Lab7/common/src/main/java/common/commands/ShowCommand.java:47-53 | succeeds exactly with no arguments; otherwise "takes no arguments" |
| Commands.PackageOneArgument | Lab7/common/src/main/java/common/commands/SendMessageCommand.java:27-33 | succeeds exactly with one argument |
| Commands.PackageIdArgument | Lab7/common/src/main/java/common/commands/RemoveByIdCommand.java:56-68 | succeeds exactly with one argument that parses as an int; otherwise the count error or the parse error |
| Commands.PackageTypeArgument | Lab7/common/src/main/java/common/commands/FilterByTypeCommand.java:61-73 | succeeds exactly with one argument naming a type in any case |
| Commands.PackageGeneratedTicket | Lab7/common/src/main/java/common/commands/AddCommand.java:84-96 | succeeds exactly with no arguments and a generated ticket, which it carries |
| Commands.PackageUpdate | Lab7/common/src/main/java/common/commands/UpdateCommand.java:85-98 | succeeds exactly with one int argument and a generated ticket; the ticket is generated before the id is parsed |
| Commands.PackageCredentials | Lab7/common/src/main/java/common/commands/LoginCommand.java:41-62 | login and register take no arguments and carry the login and password read |
| Commands.ShowResponse | Lab7/common/src/main/java/common/commands/ShowCommand.java:38-44 | the whole deque in order, or the empty-collection note |
| Commands.FilterByTypeResponse | Lab7/common/src/main/java/common/commands/FilterByTypeCommand.java:43-58 | on a parsed type the reply lists the collection filter's result for that type, a not-found note when it is empty; otherwise the parse error |
| Commands.MaxByCreationDateResponse | Lab7/common/src/main/java/common/commands/MaxByCreationDateCommand.java:41-48 | shows the first ticket, in deque order, created no earlier than any other, or the empty-collection error |
| Commands.SendMessageResponse | Lab7/common/src/main/java/common/commands/SendMessageCommand.java:12-24 | a broadcast "username: text" carrying the request id, or the authentication error |
| Commands.AddOutcome | Lab7/common/src/main/java/common/commands/AddCommand.java:56-81 | every reply carries the request id; no credentials or no ticket fail without change; success happens exactly for a new object, which is appended stamped with the user as owner, and the allocator becomes addId's result for its id |
| Commands.Stamped | Lab7/common/src/main/java/common/commands/AddCommand.java:75 | the owner becomes the user, and nothing else changes |
| Commands.ExecuteAdd | Lab7/common/src/main/java/common/commands/AddCommand.java:56-81 | the handler's effect on the manager and its reply are AddOutcome's |
| Commands.AddIfMaxOutcome | Lab7/common/src/main/java/common/commands/AddIfMaxCommand.java:56-81 | the counter advances exactly once; the deque is unchanged or gains the ticket re-id'd with the old counter; an empty deque always gains it; the reply says "not added" exactly when the deque is unchanged, and an error reply leaves the deque alone; the recorded ids are the pre-call set when the deque is unchanged, and the pre-call set plus the handed-out id when the ticket is added |
| Commands.AddOfCurrentCounterKeepsCounter | Lab7/common/src/main/java/common/commands/AddIfMaxCommand.java:56-81 | recording the id just handed out does not move the counter again |
| Commands.AddIfMaxAddsOnlyGreatest | Lab7/common/src/main/java/common/commands/AddIfMaxCommand.java:56-81 | the ticket is added exactly when it is a new object strictly above every ticket in the deque |
| Commands.ExecuteAddIfMax | Lab7/common/src/main/java/common/commands/AddIfMaxCommand.java:56-81 | the handler's effect and reply are AddIfMaxOutcome's |
| Commands.UpdateOutcome | Lab7/common/src/main/java/common/commands/UpdateCommand.java:55-82 | authentication, ticket and parse errors change nothing; an accepted update overwrites the first ticket with the parsed id (the collection's IndexOfId) and keeps every other one, and replies "updated" even when no ticket has the id |
| Commands.UpdateKeepsIdentityAndPosition | Lab7/common/src/main/java/common/commands/UpdateCommand.java:55-82 | update keeps every position, identity, id and owner; an unknown id leaves the store as it was, and the first ticket with the id takes the editable fields |
| Commands.ExecuteUpdate | Lab7/common/src/main/java/common/commands/UpdateCommand.java:55-82 | the handler's effect and reply are UpdateOutcome's |
| Commands.RemoveByIdOutcome | Lab7/common/src/main/java/common/commands/RemoveByIdCommand.java:42-53 | parse error or unknown id changes nothing; otherwise the first ticket with that id leaves the deque |
| Commands.RemoveByIdRemovesOne | Lab7/common/src/main/java/common/commands/RemoveByIdCommand.java:42-53 | a successful remove_by_id shortens the deque by exactly one and keeps objects distinct |
| Commands.ExecuteRemoveById | Lab7/common/src/main/java/common/commands/RemoveByIdCommand.java:42-53 | the handler's effect and reply are RemoveByIdOutcome's |
| Commands.RemoveHeadOutcome | Lab7/common/src/main/java/common/commands/RemoveHeadCommand.java:42-58 | without credentials or on an empty deque nothing changes; otherwise the head is removed and shown |
| Commands.ExecuteRemoveHead | Lab7/common/src/main/java/common/commands/RemoveHeadCommand.java:42-58 | the handler's effect and reply are RemoveHeadOutcome's |
| Commands.RemoveLowerOutcome | Lab7/common/src/main/java/common/commands/RemoveLowerCommand.java:54-72 | keeps exactly the tickets not below the given one, and the reported count is the number below it |
| Commands.RemovedMessage | Lab7/common/src/main/java/common/commands/RemoveLowerCommand.java:65-67 | the reply is the fixed prefix, the decimal digits of the count, and the fixed suffix |
| Commands.ExecuteRemoveLower | Lab7/common/src/main/java/common/commands/RemoveLowerCommand.java:54-72 | the handler's effect and reply are RemoveLowerOutcome's |
| Commands.ClearOutcome | Lab7/common/src/main/java/common/commands/ClearCommand.java:39-54 | without credentials nothing changes; otherwise the deque is emptied and the allocator kept |
| Commands.ExecuteClear | Lab7/common/src/main/java/common/commands/ClearCommand.java:39-54 | the handler's effect and reply are ClearOutcome's |
| Dispatch.RegistryNamesEveryCommand | Lab7/common/src/main/java/common/managers/CommandManager.java:40-58 | each of the sixteen commands is registered under its own name |
| Dispatch.RegistryHoldsOnlyNames | Lab7/common/src/main/java/common/managers/CommandManager.java:40-58 | every registered name maps to the command of that name, so the registry holds exactly the sixteen names |
| Dispatch.NamesAreDistinct | Lab7/common/src/main/java/common/managers/CommandManager.java:40-58 | different commands have different names |
| Dispatch.CommandManager.constructor | Lab7/common/src/main/java/common/managers/CommandManager.java:35-59 | the sixteen puts build exactly the registry |
| Dispatch.SplitCommandLine | Lab7/common/src/main/java/common/managers/CommandManager.java:63-70 | the name has no space; other commands' arguments have no space; send_message gets at most one argument (the words are SplitCommandLineIsWords) |
| Dispatch.SplitCommandLineIsWords | Lab7/common/src/main/java/common/managers/CommandManager.java:63-70 | the name is the first word of the stripped and trimmed line, empty for a blank line; other commands get exactly the remaining words, and send_message gets one argument exactly when there are remaining words, holding exactly those words |
| Dispatch.WordsOfCleanLine | Lab7/common/src/main/java/common/managers/CommandManager.java:63-67 | a line without edge separators cut at its first separator run: its words are the first part and the words of the non-empty rest, which split("\\s+") yields exactly |
| Dispatch.CleanLineParts | Lab7/common/src/main/java/common/managers/CommandManager.java:63 | a line without edge separators cut at its first separator run has a word on each side |
| Dispatch.CleanLineWords | Lab7/common/src/main/java/common/managers/CommandManager.java:63-67 | the words of the line are the first part followed by the words of the rest |
| Dispatch.SplitOfCleanRest | Lab7/common/src/main/java/common/managers/CommandManager.java:67 | a rest that starts with a word splits into exactly its words, and it has some |
| Dispatch.CommandOfParts | Lab7/common/src/main/java/common/managers/CommandManager.java:64-70 | from the two parts, the name is the first word and the arguments are the remaining words, or the rest as one argument for send_message |
| Dispatch.CommandLineOfOneWord | Lab7/common/src/main/java/common/managers/CommandManager.java:63-70 | a single plain word is the name with no arguments |
| Dispatch.CommandLineOfWordAndArguments | Lab7/common/src/main/java/common/managers/CommandManager.java:63-70 | a plain name followed by plain words gives that name and those words |
| Dispatch.CommandLineOfWords | Lab7/common/src/main/java/common/managers/CommandManager.java:63-67 | a line of plain words separated by single spaces gives the first word as name and the rest as arguments; a missing remainder gives no arguments |
| Dispatch.SendMessageKeepsText | Lab7/common/src/main/java/common/managers/CommandManager.java:68-69 | for send_message the whole remainder, inner spaces included, is the one argument |
| Dispatch.CommandManager.ConvertInputToCommandRequest | Lab7/common/src/main/java/common/managers/CommandManager.java:61-78 | an unregistered name fails with UnknownCommandException carrying it and builds nothing; a packaging error is passed on as it is and builds nothing; a built request carries the name, that command's packaged body, and the given credentials unchanged |
| Dispatch.CommandManager.ArgumentsToArgumentlessCommandsAreRefused | Lab7/common/src/main/java/common/managers/CommandManager.java:61-78 | a line giving arguments to help, info, average_of_price, show, clear, remove_head or max_by_creation_date builds no request and fails with "Команда не принимает аргументы." |
| Dispatch.PackageBody | Lab7/common/src/main/java/common/commands/RemoveByIdCommand.java:56-68 | every body a command packages carries the argument its handler indexes; the commands taking no arguments succeed exactly on none and otherwise fail with CommandExecuteException |
| Dispatch.ArgumentlessPackagingRefuses | Lab7/common/src/main/java/common/commands/HelpCommand.java:52-58 | help, info and average_of_price refuse an argument with "Команда не принимает аргументы." and package an empty argument list |
| Dispatch.CommandManager.BuiltRequestsHaveTheirArguments | Lab7/common/src/main/java/common/managers/CommandManager.java:61-78 | a request the client builds always has the arguments its handler reads |
| Dispatch.ExternalHandlersAnswerThemselves | Lab7/common/src/main/java/common/managers/CommandManager.java:80-83 | help, login, register, info and average_of_price can always run, and dispatch answers with their own response and leaves the deque and allocator alone |
| Dispatch.ReadOnlyHandlersKeepTheStore | Lab7/common/src/main/java/common/managers/CommandManager.java:80-83 | show, filter_by_type, max_by_creation_date, send_message and the unmodelled handlers leave the deque and allocator unchanged |
| Dispatch.RequestOutcome | Lab7/common/src/main/java/common/managers/CommandManager.java:80-83 | only add and add_if_max change the allocator |
| Dispatch.CommandManager.ExecuteRequest | Lab7/common/src/main/java/common/managers/CommandManager.java:80-83 | dispatch runs the registered handler for the request's name: effect and reply are that command's outcome |
| Scripts.CollapsedHasNoDoubleSlash | Lab7/common/src/main/java/common/managers/ScriptManager.java:60 | after runs of `/` are collapsed, no `/` follows another |
| Scripts.CollapseKeepsNonSlashes | Lab7/common/src/main/java/common/managers/ScriptManager.java:60 | collapsing removes only `/` characters |
| Scripts.Normalize | Lab7/common/src/main/java/common/managers/ScriptManager.java:60 | the File constructor's normal form: no `//`, no trailing `/` except for the root, the same first character, and only `/` characters removed |
| Scripts.NormalizeKeepsNormal | Lab7/common/src/main/java/common/managers/ScriptManager.java:60 | a name already in normal form is left as it is, so normalising is idempotent |
| Scripts.AbsolutePath | Lab7/common/src/main/java/common/managers/ScriptManager.java:60 | the empty name is the working directory; an absolute name is normalised; a relative name is normalised and appended under the working directory, without a doubled `/` under the root; under a normal absolute working directory the result is a normal absolute path |
| Scripts.AbsolutePathOfNormalized | Lab7/common/src/main/java/common/managers/ScriptManager.java:60 | a name and its normal form resolve to the same path |
| Scripts.TrailingSlashNamesSameFile | Lab7/common/src/main/java/common/managers/ScriptManager.java:60 | adding a trailing `/` to a name does not change the path it resolves to |
| Scripts.ScriptManager.RecursiveIgnoresTrailingSlash | Lab7/common/src/main/java/common/managers/ScriptManager.java:59-61 | `name/` is recursive exactly when `name` is |
| Scripts.AbsolutePathInjectiveOnRelativeNames | Lab7/common/src/main/java/common/managers/ScriptManager.java:60 | two relative names resolve to the same path exactly when their normal forms agree, so distinct names in normal form resolve to distinct paths |
| Scripts.ScannerManager.SetScanner | Lab7/common/src/main/java/common/managers/ScannerManager.java:45-47 | the scanner becomes the given one |
| Scripts.ScriptManager.constructor | Lab7/common/src/main/java/common/managers/ScriptManager.java:40-45 | both stacks empty and file mode off |
| Scripts.ScriptManager.RecursiveIffBeingRead | Lab7/common/src/main/java/common/managers/ScriptManager.java:59-61 | with the stacks in step, a script counts as recursive exactly when a scanner is reading it |
| Scripts.ScriptManager.AddPathAsWritten | Lab7/common/src/main/java/common/managers/ScriptManager.java:74-77 | the path is pushed even when the file cannot be opened, and then the scanner stack is left as it was |
| Scripts.ScriptManager.MissingScriptStaysOnStack | Lab7/common/src/main/java/common/managers/ScriptManager.java:74-77 | after a failed addPath as written, the missing script counts as recursive and the stacks differ in length |
| Scripts.ScriptManager.AddPath | Lab7/common/src/main/java/common/managers/ScriptManager.java:74-77 | corrected: one entry on each stack when the file opens, no change otherwise; the stacks stay in step and the script is then recursive |
| Scripts.ScriptManager.RemovePath | Lab7/common/src/main/java/common/managers/ScriptManager.java:88-91 | pops both stacks, throwing EmptyStackException on an empty one; keeps the stacks in step |
| Scripts.ScriptManager.AddThenRemoveRestores | Lab7/common/src/main/java/common/managers/ScriptManager.java:74-91 | removePath after a successful addPath restores both stacks and the flag |
| Scripts.ScriptManager.ActivateFileMode | Lab7/common/src/main/java/common/managers/ScriptManager.java:134-136 | sets the flag and changes neither stack |
| Scripts.ScriptManager.DeactivateFileMode | Lab7/common/src/main/java/common/managers/ScriptManager.java:144-146 | clears the flag and changes neither stack |
| Scripts.ScriptManager.ScriptCheck | Lab7/common/src/main/java/common/managers/ScriptManager.java:157-177 | outside file mode: console, flag off. In file mode: read from the top script while it has lines; an exhausted top is popped, falling back to the next script or, at the bottom, to the console with file mode off. Failures occur only on empty stacks; the stacks stay in step. After a failure, file mode stays on, the scanner stack is unchanged, the file-name stack has lost its top if it had one, and the scanner is the old top scanner, or unchanged when there was none |
| Client.Future.Complete | Lab7/client/src/main/java/client/UDPClient.java:102 | completes an empty future once; a completed one keeps its value |
| Client.FirstWithId | Lab7/client/src/main/java/client/UDPClient.java:99-103 | the chosen response answers the id, and there is none only when no arrival carries it |
| Client.FirstWithIdIsEarliest | Lab7/client/src/main/java/client/UDPClient.java:99-103 | the chosen response precedes every other answer to the same id |
| Client.FirstWithIdSnoc | Lab7/client/src/main/java/client/UDPClient.java:99-103 | one more arrival changes the answer to an id only when there was none and it carries that id |
| Client.PendingTable.Register | Lab7/client/src/main/java/client/UDPClient.java:179-180 | a fresh, empty future is put under the request id before sending |
| Client.PendingTable.ProcessResponse | Lab7/client/src/main/java/client/UDPClient.java:93-108 | a response without an id, or with an id that has no entry, changes nothing; a matching id removes its entry and completes that future with the response |
| Client.PendingTable.DuplicateResponseIsDiscarded | Lab7/client/src/main/java/client/UDPClient.java:99-103 | a second response with the same id finds nothing |
| Client.PendingTable.ReceiveAll | Lab7/client/src/main/java/client/UDPClient.java:93-108 | after the arrivals, every registered future holds the first response with its id or nothing, and exactly the unanswered ids keep their entries |
| Client.PendingTable.SendRequestWithTimeout | Lab7/client/src/main/java/client/UDPClient.java:177-192 | returns the first response with the request's id, or TimeoutException when none arrives; either way the request leaves no entry behind |
| Client.PendingTable.Submit | Lab7/client/src/main/java/client/UDPClient.java:223-229 | send_message is sent without an entry and the table is unchanged; any other request is awaited, leaves no entry, and yields the first response with its id or TimeoutException when none arrives; every other waiting entry stays exactly when no response with its id arrived |
| Client.ClassifyLine | Lab7/client/src/main/java/client/UDPClient.java:200-221 | exactly blank lines are skipped; execute_script needs exactly one argument and exit none; every other line goes on, trimmed |
| Client.ClassifyWords | Lab7/client/src/main/java/client/UDPClient.java:200-221 | for plain words the classification depends only on the first word and the word count |
| Client.SplitHasFirstWord | Lab7/client/src/main/java/client/UDPClient.java:200-221 | a line that does not start with a separator splits into a non-empty first word |
| Client.PlainWordsMakeCleanLine | Lab7/client/src/main/java/client/UDPClient.java:200-221 | plain words joined by single spaces are left alone by trim and split back into the words |
| Client.ClassifyCleanLine | Lab7/client/src/main/java/client/UDPClient.java:200-221 | on a trimmed line the classification follows its first word and word count |
| Client.SendLine | Lab7/client/src/main/java/client/UDPClient.java:220-229 | a conversion error is reported and nothing is sent; send_message is sent without an entry; any other request is awaited and leaves no entry. Its answer is the first response with its id, or TimeoutException when none arrives; every other waiting entry stays exactly when no response with its id arrived |
| Client.HandleLine | Lab7/client/src/main/java/client/UDPClient.java:194-243 | one pass of the console loop; only an awaited request touches the table, and it leaves no entry; a conversion error or a send_message leaves the table unchanged; an awaited request's answer is the first response with its id, or TimeoutException when none arrives, and every other waiting entry stays exactly when no response with its id arrived |

## Left out

- The UDP server loop, sockets, selectors, worker threads and the multicast channel are left out. Sends and receives are the parameters of the client methods. The responses that arrive during a wait are a sequence. The multicast listener only prints, and is not modelled.
- Java object serialisation (ObjectEncoder/ObjectDecoder) is left out: the byte format is the JDK's.
- XML and file storage, the SQL collection and user managers, and the password hashing are left out. SQLException paths are not modelled.
- Ownership checks of the SQL collection manager are not modelled. The handlers call the owner-taking operations; the model gives them the in-memory semantics of ServerCollectionManager, which the server is started with (Lab7/server/src/main/java/server/system/Server.java:24). What this loses:
  - SqlCollectionManager.clearCollection(username) deletes only that user's tickets (Lab7/server/src/main/java/server/managers/SqlCollectionManager.java:376-383); in the model, clear empties the whole deque (`Commands.ClearOutcome`).
  - SqlCollectionManager's updateTicket refuses a ticket owned by another user (SqlCollectionManager.java:452-453); in the model, update overwrites it (`Commands.UpdateOutcome`).
  - SqlCollectionManager's removeTicket refuses a ticket owned by another user (SqlCollectionManager.java:505-506), and its removeHead(username) removes the head through it (SqlCollectionManager.java:526-533); in the model, remove_head removes the head whoever owns it (`Commands.RemoveHeadOutcome`).
- Commands.ClearOutcome: does not scope clear to the user's own tickets, as the SQL manager does (above).
- Commands.UpdateOutcome: does not refuse another user's ticket, as the SQL manager does (above).
- Commands.RemoveHeadOutcome: does not refuse another user's head ticket, as the SQL manager does (above).
- Console input is left out: the generated ticket, or the reason generation failed, and the login and password read by login and register are parameters. Whether a scanner has a next line is a parameter.
- The `execute` of help, info, login, register and average_of_price is not modelled: its response is a parameter of dispatch. These are I/O, the user database, and float division in getAveragePrice.
- executeScript in the client is left out: it interleaves console and file reading. The script stacks it drives are modelled.
- The creation date is not stamped from a clock; updateLastModifiedTime is left out.
- Floating-point values are `real`: NaN, infinities, negative zero and rounding are not modelled.
- Text.ToUpper: String.toUpperCase() uses the JVM's default locale. The model upper-cases as the root locale does, and maps only a–z, 'ı' and 'ſ' to Latin capitals. Under a Turkish or Azerbaijani default locale, 'i' becomes 'İ' (U+0130), so "vip" becomes "VİP", valueOf fails and filter_by_type rejects a lower-case type name that the model accepts (`Text.TypeParsingIgnoresCase`). The other Unicode case mappings only change the text of the enum-parsing error.
- Text.DigitZeros lists the decimal-digit runs below U+10000 of one Unicode version. The JDK's Character.digit follows the Unicode version of the running JDK; runs added later are not in the model.
- Scripts.AbsolutePath: `/` is the only separator, and the working directory is taken as given (the JVM's user.dir). Like java.io.File, the model collapses repeated `/`, drops a trailing `/`, and keeps `.` and `..`.
- The message of FileNotFoundException is the bare file name in the model; the JDK adds an OS-specific reason.
- Comparators.CompareTickets: requires every field the comparator dereferences to be present (`Comparable`). Java fails with a null dereference only when a comparison on its path reaches a missing field; the model does not describe that failure.
- Comparators.CompareByDate: requires both creation dates, for the same reason.
- Collection.ServerCollectionManager.RemoveLower, Collection.ServerCollectionManager.GetMaxTicket, Collection.ServerCollectionManager.GetMaxByDate, Collection.ServerCollectionManager.GetFilteredByType: require the deque's tickets to have the compared or filtered fields (`AllComparable`, `AllDated`, `AllTyped`), which valid tickets always have.
- Commands.AddIfMaxOutcome, Commands.RemoveLowerOutcome, Commands.FilterByTypeResponse, Commands.MaxByCreationDateResponse: carry the same requirements on the stored and the request's ticket.
- Dispatch.CommandManager.ExecuteRequest: requires the argument counts that a packaged body guarantees (BuiltRequestsHaveTheirArguments), and the present comparator fields above. It does not model ArrayIndexOutOfBoundsException on a hand-made request.
- A request's ticket is never the same object as a stored ticket: requests arrive deserialised, so every ticket they carry is a fresh object.
- Concurrency between the sending thread and the receiver thread on the pending table is not modelled: the receiver's work during a wait happens in one step.

## Findings

| source | as written | input that shows it | evidently intended | confidence | as-written member | corrected member |
|---|---|---|---|---|---|---|
| Lab7/common/src/main/java/common/managers/ScriptManager.java:74-77 | addPath pushes the absolute path before `new Scanner(new File(name))` can throw FileNotFoundException, and the client catches that exception without calling removePath | `execute_script missing.txt` for a file that does not exist: the path stays on the name stack with no scanner, a later `execute_script missing.txt` inside a script is reported as recursion, and the stacks no longer pair names with scanners | open the file first and push both entries only when it opens, so the stacks stay in step and "recursive" means "being read" | not executed | Scripts.ScriptManager.MissingScriptStaysOnStack | Scripts.ScriptManager.AddPath |
