# The contract harness, the fault proxy and the device registry, verified

This project models three programs that face each other and proves what they promise:

- a **harness** that reads a pinned OpenAPI contract, sends test cases and judges the answers
  (`Json`, `Text`, `Pointer`, `Resolver`, `Schema`, `Keywords`, `Places`, `Meaning`, `JsonText`, `JsonPrint`,
  `JsonNumbers`, `Paths`, `Validator`, `Expectations`, `Plan`, `Runner`);
- a **proxy** between the two that spoils some of the traffic on purpose (`Http`, `Faults`, `Proxy`);
- a **service**, the device registry, with seeded bugs that can be switched on (`Store`, `Service`,
  `Answers`, `Bugs`), its pinned contract (`DeviceContract`, `Routing`) and the script that corrects
  the exported contract (`ExportSpec`).

The theorems that need both sides are in `Conformance` (the healthy service never trips the
harness), `Bugs` (every seeded bug trips it in exactly one way), `Environment` (so does the proxy's
own answer, unless it is declared: `Injected`), `Retry` (losing messages never makes the harness do a thing twice) and `Attempts` (nor
does the proxy in between, in any of its runs). What the harness reports on which document and what
the service does with which request is said without the model's own words in `Keywords`, `Verdicts`,
`Assertions` and `Answers`.

Code that computes is modelled by functions. Code that changes things is modelled by classes and
loops, each proved against a function: the reference walk, the digging into bodies, the expectation
loop, the retry loop, `HttpMessage`, the message reader, the fault decider and the proxy's counters,
the registry and the handlers that write to it, the bug middleware, and the overwriting of parameter
schemas.

## What turned out otherwise than its documentation says

- A key beside `$ref` replaces the target's key. JSON Schema 2020-12 Core, section 8.2.3.1, would
  apply both. `Meaning.SiblingsReplaceKeywords` gives a value that is accepted although the target
  rejects it, `Meaning.SiblingsCanForbid` one that is rejected although both accept it, and
  `Meaning.SiblingsConjoinIff` says exactly when the two readings agree.
- A reference in an `enum` list is data, but is replaced all the same: the list keeps its meaning
  exactly when it holds no reference (`Meaning.EnumKeptIff`; `Meaning.EnumReferencesDiffer` is a case).
- A cycle that validation comes round to, and a reference beside a reference, are left unresolved, so
  that bodies fail that are fine when references are followed on demand; a reference that is left counts
  as a failure here (`Meaning.CyclesDiffer`, `Meaning.NestedSiblingsDiffer`). These three are all there
  is: unless validating a body comes to one of them, resolution is faithful for it
  (`Meaning.ResolutionIsFaithful`).
- A schema with a property called `$ref` cannot be resolved at all, and neither can any from which
  resolution reaches it (`Meaning.PropertyCalledRefRaises`, `Resolver.RaisesIffReached`).
- Python's `$` lets a path end in a newline; `Paths.PatternMeansSegments` says exactly which paths a
  template accepts.
- Cutting a body in half leaves JSON when the first half reaches the closing bracket, and leaves a
  body of one byte as it was (`Proxy.CorruptionIsExact`, `Proxy.OneByteSurvives`).
- ERROR_CODE is meant to be an unexpected status. With a status that the operation declares, such as
  404, the injected answer cannot be told from the service's own (`Injected.InjectionPassesIff`).
- A dropped response that announced no length is delivered, cut short, as a whole message when its
  body is at least as long as its head (`Faults.DropDeliversIff`, `Faults.BareDropDelivers`).
- A body that is `null` passes whatever the schema and the expectations say. `Runner.NullHidesFailures`
  says exactly when that hides a failure, `Bugs.NullPassesForADevice` is a case.
- A negative `retries` on a method that may be retried sends nothing and passes. No other case without
  an answer passes (`Retry.UnansweredPassesIff`).
- A retried DELETE can be answered 404 although it succeeded. `Retry.DeleteAnswerIsFirstIff` says
  exactly when.
- The service takes PUT and DELETE on `/devices/search` for a device, which the contract does not
  declare (`Routing.RoutesAgree`).
- PUT checks neither the uniqueness of names nor the transition table (`Service.PutChecksNeither`).
  Names stay distinct, and transitions legal, exactly when every PUT of a run would have passed the
  check (`Service.NamesStayDistinctIff`, `Service.TransitionsAreLegalIff`).
- The comment at `_JSON_TYPES` has "number" accept integers and fractions and "boolean" alone accept
  true and false, but both numeric names accept them too. `Expectations.TypeCheckAgreesIff` says
  exactly where the check and JSON Schema part.
- The report is said to read top to bottom through the body, but members come in alphabetical order
  (`Places.MembersByName`).
- `check_response` returns a list that never has more than one element (`Validator.CheckResponseExact`).
- The rewrite of nullable parameters can change verdicts on values other than null when a keyword
  beside the `anyOf` meets one of the branch that stays (`ExportSpec.KeywordsBesideReplace`);
  `ExportSpec.TighteningIsExact` says exactly when it does. It is not idempotent on nested ones
  (`ExportSpec.SecondPass`).

## Model

| member | source | states |
|---|---|---|
| Pointer.ResolveRefLoop | harness/validator.py:50-67 | The loop that walks the document finds what the key path leads to, and fails for the same three reasons as the specification. |
| Pointer.PointerRoundTrip | harness/validator.py:56-61 | For every non-empty key path, with any mix of `~` and `/` in the keys, printing the pointer with escapes and resolving it gives exactly the node at that path, or the same failure. |
| Pointer.UnescapeOrderMatters | harness/validator.py:58-59 | Undoing `~0` before `~1` would be wrong: a token on which the two orders differ. |
| Resolver.Resolve | harness/validator.py:70-112 | Resolution stops on every contract, cyclic or not: each followed reference leaves strictly fewer references off the stack, else the schema gets smaller. An object stays an object. |
| Resolver.StackStaysClean | harness/validator.py:100-107 | In every call that resolving a schema reaches, the stack holds no reference twice, and holds only references of the contract or the root schema. |
| Resolver.RaisesIffReached | harness/validator.py:93-112 | Resolution raises exactly when it reaches a reference that is no string, or one to be followed that leads nowhere. |
| Resolver.ResolvedDepth | harness/validator.py:93-112 | The result nests at most d + k * D levels, for a schema of d levels, a contract of D levels and k distinct references off the stack. |
| Resolver.SurvivorsAreFlagged | harness/validator.py:102-105 | A reference survives only beside `x-circular: true`, when what stands beside references holds none and the input has no `x-circular` key there. |
| Resolver.AcyclicResolves | harness/validator.py:93-112 | On an acyclic contract resolution succeeds and leaves no reference, with the same result under every stack that holds no reference ranked below the schema's bound, so none that could be met. |
| Resolver.StackIsIgnoredIff | harness/validator.py:102-105 | Under any stack at all resolution of an acyclic contract succeeds, and gives the same result exactly unless a reference on the stack is met where no sibling hides what comes of it; then, and only then, a circular marker is left. |
| Resolver.ResolveTwice | harness/validator.py:93-112 | On an acyclic contract resolving a resolved schema again changes nothing. |
| Meaning.ResolutionIsFaithful | harness/validator.py:70-112 | On any contract, cyclic or not, whose references resolve: every body meets the same errors at the same places under the inlined schema as under a lazy evaluator that follows references only when validation reaches them, unless validating it comes back to a reference that it is inside of, to an `enum` list that holds a reference, or to a reference beside a reference. |
| Meaning.AcyclicNeverStrays | harness/validator.py:93-112 | On an acyclic contract with ref-free siblings and `enum` lists validation never comes to any of the three. |
| Meaning.ResolutionPreservesMeaning | harness/validator.py:70-112 | So there every body meets the same errors at the same places; the result is closed, fixed by resolving again, and its verdict is the one the keywords mean. |
| Meaning.EnumKeptIff | harness/validator.py:93-112 | On an acyclic contract an `enum` list allows the same values resolved as unresolved exactly when it holds no reference. |
| Meaning.EnumReferencesDiffer | harness/validator.py:99-112 | The reference itself, as a body, is allowed by a list of it and rejected by the resolved list. |
| Meaning.CyclesDiffer | harness/validator.py:102-105 | A list of one element under a schema that is a list of itself: fine on demand, rejected once resolved. |
| Meaning.NestedSiblingsDiffer | harness/validator.py:107-110 | The same with a reference in an `items` beside a reference. |
| Meaning.SiblingsReplaceKeywords | harness/validator.py:108-110 | A value that the inlined schema accepts and the referenced one does not: siblings replace, they do not conjoin. |
| Meaning.SiblingsConjoinIff | harness/validator.py:107-110 | On an acyclic contract a reference resolves to its target with the siblings laid over it. That means "target and siblings" for a value exactly when the value meets the replaced keywords whenever it is accepted, and the newly measured extras whenever both accept it; always, if the two share no keyword and neither's `additionalProperties` meets the other's `properties`; and beside annotations it means the target. |
| Meaning.SiblingsCanForbid | harness/validator.py:107-110 | A reference with siblings, and a value that target and siblings both accept and the inlined schema rejects. |
| Meaning.PropertyCalledRefRaises | harness/validator.py:99-112 | Any schema whose properties include one called `$ref` raises under any stack, and so does any schema from whose resolution it is reached. |
| Schema.NoErrorsMeansAccepts | harness/validator.py:376-402 | The error list is empty exactly when the value satisfies every keyword, at every place in the body. |
| Schema.AnnotationsAreHarmless | harness/validator.py:376-402 | Adding annotations to a schema changes no error of any value. |
| Schema.OverlayIsConjunctionIff | harness/validator.py:110 | One schema laid over another is their conjunction for a value exactly when nothing that matters for the value was lost or added. |
| Keywords.LengthsMean | harness/validator.py:376-402 | `minLength` and `maxLength`, whole or fractional, count the characters of a text and take the bound in; other values pass. |
| Keywords.BoundsMean | harness/validator.py:376-402 | `minimum` and `maximum` take the bound in, for every mix of integers and fractions; other values pass. |
| Keywords.TypesMean | harness/validator.py:376-402 | Which values six of the type names take. |
| Keywords.IntegersMean | harness/validator.py:376-402 | "integer" takes whole numbers, with a fraction of zero too, and nothing between them. |
| Keywords.TypeListMeans | harness/validator.py:376-402 | A list of type names is an alternative. |
| Keywords.EnumMeans | harness/validator.py:376-402 | A list of texts allows exactly these texts. |
| Keywords.EnumOfNumber | harness/validator.py:376-402 | A number in a list allows the same number, whole or with a fraction of zero, and no boolean. |
| Keywords.EqualityMeans | harness/validator.py:376-402 | Which values an `enum` list counts as one: numbers by their value, lists and objects part by part, all else as it is. |
| Keywords.RequiredMeans | harness/validator.py:376-402 | An object must have every required name, and nothing else must. |
| Keywords.PropertyMeans | harness/validator.py:376-402 | A property's schema is asked of the member of that name, if there is one. |
| Keywords.AdditionalMeans | harness/validator.py:376-402 | Beside `properties`, `additionalProperties` allows no other members when false, and asks a schema of each of them otherwise. |
| Keywords.ItemsMean | harness/validator.py:376-402 | `items` asks every item; false leaves the empty list. |
| Keywords.AnyOfMeans | harness/validator.py:376-402 | `anyOf` asks for one branch, and with no branch for the impossible. |
| Keywords.KeywordsConjoin | harness/validator.py:376-402 | Two schemas without a keyword in common, laid together, ask for both. |
| Keywords.FailureIsNamed | harness/validator.py:364-402 | A failing keyword that looks at the value alone is reported once, under its own name, where the value is. |
| Keywords.MissingIsNamed | harness/validator.py:364-402 | Each missing name is reported once, at the object. |
| Paths.PatternMeansSegments | harness/validator.py:120-133 | The pattern built by escaping and substituting accepts a path exactly when template and path have the same segments, literal ones equal and parameters non-empty, or when that holds after a final newline is taken off. |
| Paths.MatchPathTemplate | harness/validator.py:165-175 | None exactly when no template matches; otherwise a matching template of the highest score, whatever the order of the paths. |
| Paths.FirstWins | harness/validator.py:165-175 | Of matching templates with the highest score the first in the contract is chosen. |
| Paths.SpecificBeatsParametrized | harness/validator.py:136-175 | A template is never chosen when another matching one is literal wherever it is and in one more place. |
| Paths.LiteralTemplateWins | harness/validator.py:145-175 | A path that is itself a template without parameters is always matched to itself. |
| Validator.CheckResponseInOrder | harness/validator.py:262-344 | The list built step by step, with its early returns, is the one the specification gives. |
| Validator.CheckResponseExact | harness/validator.py:240-344 | At most one violation, and none exactly when operation, status and media type (or the absence of a body) are as promised. |
| Validator.OperationStands | harness/validator.py:183-187 | The operation is what stands at paths, template and method in small letters; null there is none. |
| Validator.CheckStands | harness/validator.py:262-344 | On any contract, by what stands where in it: no operation, no such status, a body where no media type is declared, or an undeclared media type, in this order. |
| Validator.SchemaStands | harness/validator.py:200-232 | The body schema is what stands at responses, status, content, application/json and schema, resolved; there is none when any of these is missing or the schema is null. |
| Validator.ShortCircuitHasNoSchema | harness/validator.py:262-302 | Whenever the check stops early there is no schema either, for every response, with the default method too. |
| Validator.CheckBodyAgainstSchema | harness/validator.py:376-430 | One violation per schema error, each with the kind and place of its error, sorted by place, and none exactly when the body satisfies the schema. |
| Places.ErrorsCompare | harness/validator.py:393-400 | Sorting the errors never raises: of any two errors of one body, under any schema, the places compare, names with names and numbers with numbers. |
| Places.PlacesAreOrdered | harness/validator.py:393-400 | Places that compare are totally ordered. |
| Places.InsideFirst | harness/validator.py:393-400 | What two places have in common does not count, and an error of a value comes before those inside it. |
| Places.ItemsInOrder | harness/validator.py:393-400 | Items are reported in the order of the list, with all that is in them. |
| Places.MembersByName | harness/validator.py:393-400 | Members are reported in alphabetical order of their names. |
| Places.FirstDifference | harness/validator.py:393-400 | Of two names the first character that differs decides; else the shorter one comes first. |
| Places.SortedAlike | harness/validator.py:393-400 | However the errors of one body are sorted, their places come out the same, one by one. |
| Verdicts.DeviceReported | harness/validator.py:356-430 | For any value where a device should stand, at any place: the violations are exactly those of an id that is no whole number, a name that is no text of 1 to 64 characters, a status that is none of the three words, or of a missing member, each with its kind and place. |
| Verdicts.DeviceAccepted | spec/openapi.json:4-36 | The pinned device schema accepts exactly the objects with a whole id, a name of 1 to 64 characters and one of the three words. |
| Verdicts.ListReported | harness/validator.py:364-430 | Any value where a list of devices should stand: each item is reported on at its own position. |
| Verdicts.PageReported | harness/validator.py:364-430 | Any value where a page should stand: exactly these violations, of its list, its three numbers, or a missing member. |
| Verdicts.ErrorReported | harness/validator.py:364-430 | Any value where an error should stand: exactly these violations. |
| Verdicts.KeywordReported | harness/validator.py:356-362 | Wrong types and wrong enum values have kinds of their own, other failing keywords share one. |
| Verdicts.MembersReportedAs | harness/validator.py:356-362 | Missing and unexpected members have kinds of their own. |
| Verdicts.MediaTypeMeans | harness/transport.py:56-59 | The media type is what stands before the first semicolon, without white space around it; it may be absent. |
| Verdicts.ContractVerdict | harness/validator.py:262-344 | For any response under the pinned contract: which of the four violations the contract check reports, by the path's segments, the method, the status as a number, the body and the media type. |
| Expectations.DigLoop | harness/runner.py:39-47 | The loop finds the value at a dotted path through objects and lists, or none, with negative list indices counted from the end. |
| Expectations.CheckExpectations | harness/runner.py:50-147 | One violation per failing predicate of each expectation, in order; it raises exactly when a length is asked of a value without one. |
| Expectations.NoFailuresMeansHolds | harness/runner.py:50-147 | No violation exactly when every predicate of every expectation holds at its path. |
| Assertions.PyEqualMeans | harness/runner.py:84 | Python's equality on texts, null and numbers, with true as 1 and false as 0. |
| Assertions.PyEqualInside | harness/runner.py:84 | On lists item by item, on dictionaries member by member in no order. |
| Assertions.TextExpected | harness/runner.py:82-147 | What `equals`, `one_of`, the two lengths and `type` come to on a text at the empty path. |
| Assertions.ListExpected | harness/runner.py:95-147 | The lengths and the type of a body that is a list. |
| Assertions.IdExpected | harness/runner.py:84-93 | `equals` on a device's id: the same number, whole or with a fraction of zero, and no text. |
| Assertions.IdAmong | harness/runner.py:122-134 | `one_of` on a device's id: a number that equals it, and no text. |
| Assertions.IdIsAnInteger | harness/runner.py:95-147 | An id is an integer and no string, and asking its length raises. |
| Assertions.NameExpected | harness/runner.py:82-147 | The five predicates on a device's name. |
| Assertions.StatusExpected | harness/runner.py:82-147 | `equals` and `one_of` on a device's status, by the three words. |
| Assertions.NothingElse | harness/runner.py:68-80 | No expectation holds at any other member of a device. |
| Assertions.WholeDeviceExpected | harness/runner.py:95-147 | A device as a whole has three members and is an object. |
| Assertions.OnlyThreeAreSized | harness/runner.py:95-121 | Asking a length raises exactly for null, booleans and numbers. |
| Assertions.PageExpected | testplans/devices_read.yaml:3-40 | `equals` on total, limit and offset of a page, and the lengths of its list. |
| Assertions.ItemExpected | harness/runner.py:39-47 | A device of a page by its position from the front. |
| Assertions.LastItemExpected | harness/runner.py:39-47 | And from the end, with a minus. |
| Assertions.EachIsReported | harness/runner.py:63-145 | Every predicate that fails is reported once, at its path, as if it had been asked alone; a value that is not there is reported once. |
| Assertions.ReportedInOrder | harness/runner.py:61-147 | The violations of a list of expectations are those of its parts, one after another. |
| Expectations.TypeCheckAgreesIff | harness/runner.py:26-36 | The `type` predicate agrees with the schema keyword on a value exactly unless it takes a boolean for a number or a whole number written with a fraction for no integer. |
| Runner.VerdictIsExact | harness/runner.py:222-273 | The violations are empty exactly when the response has the expected status, keeps the contract's promises, is JSON where that matters, and, unless its body is null, satisfies the schema and meets all expectations. |
| Runner.ReportsAlike | harness/runner.py:222-273 | Any two reports on one response have the same places, from the first violation to the last. |
| Runner.NullHidesFailures | harness/runner.py:247-266 | An empty verdict hides a failure exactly when the body is null and null fails the schema or an expectation. |
| Verdicts.WholeVerdict | harness/runner.py:222-273 | The verdict on any response to any case under the pinned contract, in plain words: an unexpected status, what the contract check says, and, where a body is declared or expected, that it is no JSON, or what is wrong with it and which expectations it fails; null is asked nothing. |
| Verdicts.RaisesIff | harness/runner.py:95-121 | Under the pinned contract judging raises exactly when a length is asked of a value without one in a body other than null. |
| Runner.RunCase | harness/runner.py:169-273 | The retry loop ends as the network model says. With an answer the case passes exactly when it satisfies everything; without one, exactly when the method may be retried and `retries` is negative. |
| Retry.PlayIsOneDelivery | harness/runner.py:187-208 | For any service on which a second delivery changes nothing, any pattern of losses leaves the state of one delivery or of none, and the answer seen is that of the first or of the second delivery, as the pattern says. |
| Retry.SixAreRetried | harness/plan.py:38-88 | For GET, PUT, DELETE, PATCH, HEAD and OPTIONS, by name: with `retries` at least 0 the answer is the first that comes through among 1 + retries attempts, and all of these are made when none does. |
| Retry.OthersAreTriedOnce | harness/plan.py:38-88 | Any other method is tried once, whatever `retries` says. |
| Retry.RetrySafety | harness/runner.py:187-208 | A case run against the registry makes 1 to 1 + retries attempts, a POST exactly one, and leaves the store as after one delivery, or untouched when no request arrived. |
| Retry.AnswerIsFirst | harness/plan.py:86-88 | For every method but DELETE any answer seen is the single delivery's. |
| Retry.DeleteAnswerIsFirstIff | api/main.py:251-270 | For DELETE the answer is the single delivery's exactly when no success was answered and lost before. |
| Retry.ServeSettles | harness/plan.py:38 | No request but a POST leaves a trace of a second delivery in the store. |
| Retry.PostDoesNotSettle | api/main.py:135-158 | A POST that created a device is answered 409 when delivered again: it is rightly not retried. |
| Retry.UnansweredPassesIff | harness/runner.py:182-220 | A case without an answer passes exactly when its method may be retried and `retries` is negative, and then nothing was sent. |
| JsonText.CutContainer | harness/transport.py:71-77 | A JSON object or array cut short parses exactly when the cut spares the closing bracket, and then to the same value. |
| JsonPrint.PrintedReadsBack | api/bugs.py:231-235 | Whatever value without floating point numbers is printed, with any white space behind separators, with or without everything but ASCII escaped, and with members in the order that any rule gives, parses back to the same value. |
| JsonPrint.SurroundedReadsBack | harness/transport.py:71-77 | So it does with any white space around it and behind its separators: blanks, tabs, line feeds and carriage returns. |
| JsonPrint.StrayIsNoJson | harness/transport.py:71-77 | A text that starts with anything but white space and the start of a value is no JSON. |
| JsonNumbers.WholeReads | harness/transport.py:71-77 | A sign and digits without a needless zero read as that integer. |
| JsonNumbers.FractionReads | harness/transport.py:71-77 | With a fraction or an exponent a text reads as its digits, moved by the exponent less the digits behind the point. |
| JsonNumbers.PowersMean | harness/transport.py:71-77 | Moving by one is a factor of ten, upward and downward. |
| JsonNumbers.NoNumberReads | harness/transport.py:71-77 | A point without digits behind it, a needless zero and a lone minus are no JSON. |
| JsonNumbers.EscapesRead | harness/transport.py:71-77 | The eight short escapes and what they stand for; any other is no JSON, nor is a bare control character. |
| JsonNumbers.HexDigitsRead | harness/transport.py:71-77 | Hexadecimal digits count in both cases. |
| JsonNumbers.LaterMemberWins | harness/transport.py:71-77 | Of two members of one name the later counts. |
| Http.HttpMessage.Header | proxy/server.py:51-57 | The loop finds the first header of that name, in any case. |
| Http.NamedMeans | proxy/server.py:51-57 | A header name is the same in any case, letter by letter, and no other name is. |
| Http.HttpMessage.ReplaceHeader | proxy/server.py:59-62 | Afterwards the name is found with the new value and stands there once, at the end; every other name finds what it found, and the other headers stay in order. |
| Http.HttpMessage.DropHeader | proxy/server.py:64-66 | Afterwards the name is not found; every other name finds what it found, and the other headers stay in order. |
| Http.HttpMessage.ToBytes | proxy/server.py:68-72 | The loop prints start line, headers in order, a blank line and the body. |
| Http.ReadMessage | proxy/server.py:95-122 | The reader takes exactly one message off the stream, or says why there is none. |
| Http.RoundTrip | proxy/server.py:68-122 | Reading a printed message gives it back exactly when the reader would take its body for the whole of it. |
| Http.ReadsOneMessage | proxy/server.py:95-122 | A framed message is read off the front of a longer stream, and nothing more. |
| Http.ReadOutcomes | proxy/server.py:95-122 | A head and any bytes behind it: without a length above zero all of them, read to the end, or none; with one so many, or too few; with a length that is no number nothing. |
| Http.NoMessageIff | proxy/server.py:95-103 | There is no message exactly when no blank line ends a head. |
| Http.HeaderReads | proxy/server.py:107-112 | White space around a name and a value does not count, and a line without a colon is no header. |
| Http.ParsePrintParse | proxy/server.py:68-122 | Whatever stream is accepted, printing the message and reading it again gives the same message. |
| Http.CutMessageIsNoMessage | proxy/server.py:95-120 | Framing is prefix-free: no strict prefix of a printed message with an exact Content-Length reads as a message. |
| Http.CutReads | proxy/server.py:95-120 | What any strict prefix of any printed message reads as: nothing, an unfinished body, or a shorter message when no length above zero was announced. |
| Faults.FaultDecider.ShouldInject | proxy/faults.py:122-139 | The k-th decision is the one that configuration and k give, whatever was asked before. |
| Faults.FaultProxy.Admit | proxy/server.py:168-180 | The counters stay the number of decisions and the number of true ones. |
| Faults.FaultProxy.Respond | proxy/server.py:211-236 | The bytes written back are those of the mode: cut in half with a new length, half a message, or the message itself. |
| Faults.FaultProxy.Handle | proxy/server.py:160-244 | One connection from its bytes to its reply: what is counted, what goes upstream, and what is written back, for every client and every upstream. |
| Faults.CorruptedReadsBack | proxy/server.py:215-221 | A corrupted response is well framed: same start line, same other headers in order, one Content-Length equal to the new length, and a prefix of the body that is strict from two bytes on. |
| Faults.CorruptedIsHalf | proxy/server.py:215-221 | The body is cut to half of its length, rounded down, and to no less than one byte. |
| Faults.DroppedIsNoMessage | proxy/server.py:227-231 | A dropped response that announced its length is never read as a message. |
| Faults.DropDeliversIff | proxy/server.py:223-231 | Any dropped response is read as a message exactly when it announced no length above zero and its body is at least as long as its head; the message is then shorter. |
| Faults.BareDropDelivers | proxy/server.py:227-231 | A response without headers that is delivered although dropped. |
| Faults.TransparentWhenHealthy | proxy/server.py:206-236 | Without a fault the client reads what the proxy read. |
| Faults.ForwardedRequestReadsBack | proxy/server.py:193-204 | The request sent on reads as the same start line and body, for one connection: one `Connection: close`, no `Keep-Alive`, and the other headers in order. |
| Faults.ErrorResponseReadsBack | proxy/server.py:125-140 | The proxy's own error answer is well formed for every status. |
| Faults.RelaysAsSent | proxy/server.py:180-236 | A request that is not hit, or only late, is sent on, and answered with the very bytes that upstream sent, be they framed by a length or by the end of the stream. |
| Faults.RelaysDamaged | proxy/server.py:186-236 | One that is hit: with ERROR_CODE nothing is sent and the proxy answers itself; else it is sent on, and the answer comes back with half its body, or as the first half of its bytes. |
| Proxy.EveryRunIsCounted | proxy/server.py:160-244 | Over every interleaving of connections: requests_seen counts decisions, faults_injected the true ones, one number is drawn for each so that it depends on configuration and number alone, refused requests never reach upstream and others at most once, and every reply is the proxy's own or what upstream answered to that very request, edited as decided. |
| Proxy.AdmitsOneRequest | proxy/server.py:170-176 | The request that is decided about is one message; what was sent behind it is not part of it. |
| Proxy.RecordsTheAnswer | proxy/server.py:205-208 | Upstream's answer is taken whole, even where only the end of the stream ends it. |
| Proxy.HitsBelowProbability | proxy/faults.py:131-139 | In every reachable state the k-th request is hit exactly when there is a mode and the k-th number drawn is below the probability. |
| Proxy.CertainAndImpossible | proxy/faults.py:131-139 | In every reachable state: with probability 1 every request has been hit, with probability 0 or without a mode none. |
| Proxy.RaisingProbability | proxy/faults.py:131-139 | In any two runs that differ in probability alone, whatever the lower one hits the higher one hits. |
| Proxy.DecisionsAreReproducible | proxy/faults.py:122-139 | Two runs of equally configured proxies decide alike, request by request, however they interleave. |
| Proxy.NothingIsRewritten | proxy/server.py:206-244 | Over every interleaving, the answer read for a request and the reply written to it stay as they are in all later states. |
| Proxy.WhatTheClientReads | proxy/server.py:160-244 | In every reachable state, what a client reads from its reply is what the mode makes of the message that upstream answered to this request: what the cut of a drop leaves of it, it with half the body, or just it; or else the proxy's own answer. |
| Proxy.CorruptionIsExact | proxy/server.py:215-221 | Halving a JSON object or array leaves no JSON exactly when the half does not reach its closing bracket. |
| Proxy.CorruptionIsReported | harness/runner.py:247-260 | A corrupted object or array without trailing white space is reported as no JSON whenever a schema or an expectation applies. |
| Proxy.PrintedCorruptionIsReported | harness/runner.py:247-260 | So every object or array printed in any style is reported when the proxy corrupts it. |
| Proxy.CorruptionIsCaught | proxy/server.py:215-221 | From the wire to the verdict: in every reachable state the reply to a corrupted request reads as what upstream answered to it with half the body, and if that body was an object or array with nothing behind it, every case that looks at the half reports it as no JSON. |
| Proxy.AnswersAreLostIff | proxy/server.py:223-231 | In every reachable state a request that was replied to and not refused has reached upstream, and the answer upstream gave to it is lost, in the sense of the retry loop, exactly when it was dropped and the cut leaves no message of it: always, if it announced its length. |
| Proxy.OneByteSurvives | proxy/server.py:215-221 | A body of one byte is not changed by the corruption. |
| Store.Registry.Reset | api/store.py:23-48 | Whatever happened before, the three seeded devices and the id counter are back. |
| Store.Registry.CreateDevice | api/store.py:82-96 | The device gets the counter's id, and the counter moves on. |
| Store.Registry.ReplaceDevice | api/store.py:99-112 | An existing device is overwritten under its id; otherwise nothing changes. |
| Store.Registry.DeleteDevice | api/store.py:115-124 | Exactly that device is gone; the answer is whether it was there. |
| Store.Registry.SetStatus | api/store.py:192-207 | Only that device's status changes. |
| Store.Registry.Page | api/store.py:210-222 | The list cut at both ends is the page of the specification, and the total is that of the whole list. |
| Store.PagesPartition | api/store.py:210-222 | The pages at 0, limit, 2 * limit, ... put together are the registry, each device once and in order of id, in as few pages as limit allows, each with the true total. |
| Service.SearchFindsExactly | api/store.py:127-151 | A search finds exactly the devices that pass both filters, each once and in order of id. |
| Service.ContainsMeans | api/store.py:146 | The substring test holds exactly when the part stands somewhere in the text. |
| Service.Api.Call | api/main.py:79-312 | Routing and the eight handlers, run on the registry object, give the store and the answer that the specification gives. |
| Answers.GetAnswers | api/main.py:191-216 | GET by id, in the request's texts: 422, 404, or the device with its id, name and word; nothing changes. |
| Answers.PatchRefusals | api/main.py:273-303 | Which PATCH is answered 400 or 422 for its body or id, with the error's code; nothing changes. |
| Answers.PatchMoves | api/main.py:295-313 | A PATCH for a status by its word: 404, or 409 when the table does not allow the move; else the device keeps id and name, has that status, and this PATCH and the next GET are answered with the word. No other device and no counter changes. |
| Answers.PutRefusals | api/main.py:219-235 | Which PUT is answered 400 or 422, with the error's code; nothing changes. |
| Answers.PutReplaces | api/main.py:225-242 | A PUT with name and status: 404, or the device becomes just that under its id, and this PUT and the next GET are answered so. No other device and no counter changes. |
| Answers.DeleteRemovesIt | api/main.py:245-270 | DELETE: 422, 404, or 204 without a body; a GET afterwards is answered 404. No other device and no counter changes. |
| Answers.PostRefusals | api/main.py:128-151 | Which POST is answered 400 or 422, with the error's code; nothing changes. |
| Answers.PostCreates | api/main.py:135-157 | A POST with a name: 409 when a device has it; else one device more under the next id, with that name and the status asked for or offline. It is answered so with its Location, and a GET there is answered the same. No other device changes. |
| Answers.ListRefusals | api/main.py:97-109 | Which list request is answered 422. |
| Answers.ListAnswers | api/main.py:97-125 | A page in full: the devices in order of id from the offset on, at most `limit` of them, 50 from the first unless asked otherwise, with the number of all, and limit and offset as applied. |
| Answers.SearchAnswers | api/main.py:168-188 | A search in full: 422 for a status that is no word, else exactly the devices whose name holds the part in any case and whose status is the word, in order of id. |
| Answers.HealthAnswers | api/main.py:79-88 | The health report. |
| Answers.UnroutedAnswers | api/errors.py:32-79 | 405 where another method has a route for the path, else 404, with the error's code. |
| Answers.SeededPage | api/store.py:44-53 | The fresh service lists its three devices, by name and status, as its first page. |
| Answers.SeededAnswers | api/store.py:23-48 | A fresh service answers each of its three devices by id. |
| Service.EveryRunIsGood | api/store.py:82-124 | In every reachable state keys are the devices' ids, all below the counter, and names fit their bounds. |
| Service.DeletedAnswers404 | api/main.py:197-216 | An id that was deleted answers 404 for the rest of any run. |
| Service.PutFreeRunsMoveLegally | api/store.py:167-189 | Along any run without PUT names stay distinct, no device is renamed, and every change of status is a legal transition. |
| Service.PutChecksNeither | api/store.py:99-112 | One PUT can give two devices one name and make an illegal transition. |
| Service.ServeKeepsIff | api/main.py:225-248 | In any good store, a request keeps names distinct exactly when it is no PUT of a name that another device has, and moves statuses legally exactly when it is no PUT of a status that the table forbids. |
| Service.NamesStayDistinctIff | api/store.py:99-112 | Along any run names are distinct throughout exactly when every PUT along it would have passed the check for names. |
| Service.TransitionsAreLegalIff | api/store.py:167-189 | Along any run every change of status is legal exactly when every PUT along it would have passed the check for transitions. |
| DeviceContract.PinnedIsSound | spec/openapi.json:2-186 | The references of the pinned contract are acyclic and lead to schemas, and the body schemas resolve to the closed schemas given. |
| DeviceContract.NamedResolves | spec/openapi.json:2-186 | A reference to a named schema leads to that schema. |
| Routing.Chosen | harness/validator.py:145-175 | For every path the template that the harness picks from the pinned contract is the one the segments say. |
| Routing.RoutesAgree | api/main.py:79-279 | The service has a route for exactly the operations that the contract declares, and for PUT and DELETE on /devices/search besides. |
| Conformance.HealthyServiceConforms | api/main.py:56-312 | In every state that any run reaches, every answer to a declared operation passes the contract checks and is valid under its resolved schema, for any serializer whose output reads back. |
| Conformance.PrintedServiceConforms | api/main.py:56-312 | The same for every style of printing, and nothing left to suppose. |
| Conformance.HandleKept | api/main.py:56-312 | Whatever a handler answers has a status its operation declares, and the body, or the absence of one, that is declared for that status. |
| Bugs.Middleware.Call | api/bugs.py:185-247 | The middleware around the application gives the store and the answer of the specification under the mode in force. |
| Bugs.Middleware.Replay | api/bugs.py:114-124 | A run in which the mode is set anew before every request leaves the registry as a healthy service would, and answers each request as the specification says. |
| Bugs.Payload.Corrupt | api/bugs.py:130-173 | At most the mode's one key of the payload changes, and only for answers it aims at: the name goes, the id becomes the text of the same number, the status becomes no status, or the last item stands twice; only WRONG_STATUS changes the status code. |
| Bugs.BugsNeverTouchTheStore | api/bugs.py:185-247 | Whatever modes are switched on and off along a run, the store ends as on a healthy service. |
| Bugs.OffTargetIsHealthy | api/bugs.py:141-173 | A request that the mode does not aim at is answered as by a healthy service. |
| Bugs.DetailMeans | api/bugs.py:45-46 | The matcher for one device takes /devices/ and then digits, at least one, and nothing else behind it. |
| Bugs.DetailStarts | api/bugs.py:45-46 | Whatever the matcher takes starts with /devices/. |
| Bugs.BugIsReported | api/bugs.py:141-173 | On target, the contract and schema checks report the mode's own violation and nothing else. |
| Bugs.ViolationsSpelledOut | harness/validator.py:356-373 | Those violations are a missing field, a wrong type at `id` and an enum failure at `status`. |
| Bugs.DetectedExactly | api/bugs.py:141-247 | In every reachable state and under every mode, the checks pass exactly when the mode does not aim at the request or is OFF_BY_ONE_PAGE. |
| Bugs.PrintedDetectedExactly | api/bugs.py:141-247 | The same for every style of printing, and nothing left to suppose. |
| Bugs.OffByOneConforms | api/bugs.py:161-171 | A page with its last item doubled passes every contract and schema check. |
| Bugs.OffByOneIsExpectedAway | harness/runner.py:95-107 | `max_length: limit` always holds of a healthy page, and fails of a doubled one exactly when offset + limit <= total. |
| Bugs.VerdictNamesTheBug | harness/runner.py:222-273 | A case that asks for the status it gets and for nothing else fails with exactly that one violation. |
| Bugs.NullPassesForADevice | harness/runner.py:247-266 | A GET for a device that is answered `null` passes, although the declared schema rejects null. |
| Environment.ErrorCodeIsReported | proxy/server.py:186-193 | From the wire to the verdict: in every reachable state the reply to a request that ERROR_CODE hit is received as the proxy's own answer, and to a declared operation every case reports it as an undeclared status exactly when the operation does not declare the status. |
| Environment.ServerErrorsAreUndeclared | proxy/faults.py:70 | The default of the proxy, 503, and every other 5xx are declared by no operation. |
| Injected.ErrorBodyReads | proxy/server.py:125-140 | The body of the proxy's own answer is JSON: an error with its code and message. |
| Injected.InjectionPassesIff | proxy/server.py:186-193 | For every declared operation and every status from 400 to 599: the injected answer passes the contract and schema checks exactly when the operation declares the status. |
| Attempts.SentInOrder | proxy/server.py:160-204 | When each request is read only after the one before is done with, requests reach upstream in the order they were read, in every state of the run. |
| Attempts.RunIsPlay | harness/runner.py:187-208 | Unless the proxy answered the last attempt itself: with the fates read off a proxy run, the retry loop makes as many attempts as the run shows, leaves any service as the requests sent on leave it, gets an answer exactly when a whole message came back, and sees that answer where the proxy left it alone. |
| Attempts.OneDeliveryThroughProxy | harness/runner.py:187-208 | Whatever the proxy delayed, refused, corrupted or dropped, and even when attempts overlap, a case leaves the registry as after one delivery, or untouched when nothing was sent on; a POST is sent on at most once. |
| Attempts.RetrySafetyThroughProxy | harness/runner.py:187-208 | When the attempts of a case follow one another and the proxy left the last answer alone, the client sees the answer of the single delivery, or, after an earlier one that was sent on, that of a second delivery, which differs for a successful DELETE only. |
| ExportSpec.TightenInPlace | scripts/export_spec.py:60-76 | The loop overwrites each parameter with its rewritten form and touches nothing else. |
| ExportSpec.OnlySchemasChange | scripts/export_spec.py:56-78 | The document is the same but for the schemas of parameters. |
| ExportSpec.TighteningKeepsMeaning | scripts/export_spec.py:65-76 | With annotations only beside the `anyOf`, the rewritten schema resolves, accepts exactly what the kept branch accepts, and every value but null that the original accepted. |
| ExportSpec.TighteningIsExact | scripts/export_spec.py:65-76 | Whatever stands beside the `anyOf`, the rewrite keeps the verdict on a value other than null exactly when the value meets the replaced keywords of the branch whenever the rewritten schema accepts it, and the newly measured extras whenever the original does; always, if branch and rest do not meet. |
| ExportSpec.KeywordsBesideReplace | scripts/export_spec.py:75-76 | A value that the original rejects and the rewritten schema accepts. |
| ExportSpec.SecondPass | scripts/export_spec.py:34-78 | Running the rewrite again changes nothing exactly when no parameter keeps a branch that is itself such an `anyOf`. |

## Left out

- The order of schema errors at one and the same place, which is that of the jsonschema library. Dictionary order is modelled only where it could matter, in the list of path templates.
- Violation messages, `expected` and `actual` texts, timings, sleeps and backoff, the summary of a run and its pass rate.
- Loading plans: `parse_case`, its unknown and missing keys, and `_reject_duplicate_names`, which look at one dictionary or list each. What they leave behind, an upper-case method, is a premise of the routing theorems.
- Unicode: white space, letter case and digits are those of ASCII. Texts and bytes are both sequences of characters, so decoding is not modelled.
- `int()` of texts with blanks, underscores or other digits; the integer parameters of the service likewise.
- JSON texts with NaN or Infinity; half a surrogate pair on its own reads as U+FFFD, for want of such a character. Printing is modelled for values without floating point numbers, which is all that the service sends.
- Regular expressions other than the patterns made from templates; the matcher for `/devices/<digits>` is modelled on segments, for paths without a newline.
- The keywords of JSON Schema outside the fragment that the contract uses, references that survive resolution, and malformed schemas, on which jsonschema raises.
- Meaning.ResolutionIsFaithful: every reference must be a string that resolves, and no property may be called `$ref`; what the resolver does with others is in `Resolver.RaisesIffReached` and `Meaning.PropertyCalledRefRaises`. An `anyOf` counts as reached with all its branches.
- ExportSpec.TighteningIsExact: for schemas without a `$ref` of their own beside the `anyOf`, and, when the branch that stays is a reference, without references beside it; those would not be resolved after the rewrite.
- Conformance.HealthyServiceConforms: the titles, descriptions, examples, parameters and request bodies of the pinned contract are not part of it, but for the description beside one reference.
- Routing.Chosen: for paths that do not end in a newline, as are the theorems built on it; what templates accept beyond that is `Paths.PatternMeansSegments`.
- Proxy.CorruptionIsReported: for objects and arrays; half of a bare string, number or word may be JSON or not.
- Attempts.RunIsPlay: an attempt that never reached the proxy is not among the attempts of a run. How the service puts its answers into bytes is not modelled; upstream is taken to answer what the service answers.
- Attempts.RetrySafetyThroughProxy: for attempts that do not overlap. When a client gives up on a request that the proxy still holds, the next attempt can overtake it; the registry is safe even then (`Attempts.OneDeliveryThroughProxy`), but which attempt gets the first answer depends on the race.
- Sockets, buffer limits and read timeouts: a stream is a sequence of bytes that ends, so `LimitOverrunError` is no case of the reader. A Content-Length that is no plain number raises in the source and reads as no message here. Chunked coding and multi-part reads of one head are not modelled.
- The chunks of a streamed body: to the bug middleware a body arrives whole. The explicit `path_template` argument of `check_response`, which the harness never passes.
- The delay of LATENCY, the random generator (a stream of draws per seed), environment variables and command lines.
- The framework's redirects from a trailing slash, its documentation pages, and its texts for validation errors; a declared 422 carries one fixed text.
- The raising of the export script on an `anyOf` branch that is no object; the model leaves such a schema alone.
- The flake detector of the project plan, for which there is no code.
