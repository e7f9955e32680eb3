# Verification model of the plasma-mcp-bridge core

plasma-mcp-bridge lets an MCP client call D-Bus methods: JSON-RPC frames come in on stdin, tool calls
run on worker threads, JSON arguments are coerced to D-Bus types after the signature found by
introspection, replies are decoded back to JSON, and a call policy judges every call. This project
models that core in Dafny and proves what it is for.

| files | what they model |
|---|---|
| `Signatures`, `Scanner` | D-Bus types, their text, and the scanner that reads signatures under the D-Bus limits |
| `Json`, `Integers`, `Texts` | JSON values, exact 64-bit integers, base64, object paths |
| `Wire`, `Coercer`, `Values`, `Marshalling`, `Builder`, `TypeCoercer` | the two-pass coercer: what pass 1 accepts, the D-Bus value an accepted tree stands for, the operation stream of pass 2 and how it reads back |
| `Natural`, `Depths` | the natural mapping, and how deep a message really gets |
| `Demarshaller`, `RoundTrip`, `Replies` | the demarshaller with its cursor, replies and arguments undoing each other, and what a reply is shown as |
| `Glob`, `CallPolicy`, `Audit`, `Resolver`, `CallPath` | the policy, what its audit log tells, the introspection resolver, and the path of one call through all of them |
| `Framing` | the line framer |
| `Engine`, `EngineRequests`, `RunnerInvariant`, `EngineInvariant`, `EngineProperties`, `EngineShutdown`, `EngineResponses` | the concurrent request engine as a transition system, what each message does to it, its invariants and laws over every interleaving |
| `ToolRunner`, `Server` | the objects of the code, with their shared cancel flags and unordered subscriptions, held against that transition system |
| `Wrappers`, `Sequences` | optional results, two facts about sequences |

Code that updates state is written as methods and classes (`ArgumentWriter`, `Reader`, `Bus`,
`OwnerMemo`, `CallPolicy`, `StdioTransport`, `ToolRunner`, `Server`) whose contracts tie the new state
to a specification function; the laws are proved about those functions. `Platform` holds what QtDBus
provides: the signatures with a registered element type, and the texts of doubles.

A cancel flag is an object that the table of calls in flight and the thread pools share, a set of
subscriptions is walked in whatever order comes, and a `Server` always carries the run of the transition
system that led to its state (`Server.Server.Running`), so that every law over runs is one of the
objects. The handlers that `OnMessage` calls have no rows of their own below; what they come to is
stated by `OnMessage` and by the laws of the engine.

Where the code and its documentation differ, the model follows the code:

- The comment at `src/dbus/typecoercer.cpp:201-206` promises the message limits. They hold for every
  leaf (`Values.ValueWithin`), but an empty list or object of the natural mapping may open one container
  too many: `Depths.CoercedOpens` and `Depths.LooseOpens` say exactly when, `Depths.LimitIsPassed` gives
  arguments for which it happens.
- The pattern of `isObjectPath` (`src/dbus/typecoercer.cpp:162`) also accepts a path followed by one
  line break; `Texts.ObjectPathExact` says exactly when an accepted text is a valid path.
- An id in use may get an answer besides its own response, against `src/mcp/server.cpp:142`: malformed
  frames are answered first. `EngineResponses.AnsweredWhileOpen` is such a run,
  `EngineResponses.ResponseInUse` says which frames do it.
- `finished` can be emitted twice: `EngineResponses.AnnouncedTwice` is such a run,
  `EngineResponses.EndingsAtMostTwo` says which runs do it.
- The names of a call are not all checked before it is logged, against `src/tools/dbustools.cpp:75-78`:
  an interface that introspection data names is not. `CallPath.JudgedNames` says what is checked,
  `Audit.OneLineTwoCalls` gives two calls with one line, and `Audit.ConfusedExactly` says which calls
  share theirs with another.

## Model

| member | source | states |
|---|---|---|
| Signatures.ParseSound | src/dbus/typecoercer.cpp:218-272 | what the scanner takes for a complete type is the text of that type, at that place, within the nesting limits left to it |
| Signatures.ParseComplete | src/dbus/typecoercer.cpp:218-272 | the text of every type within the limits is read back as that type, up to its end and no further |
| Signatures.SplitUndoesPrint | src/dbus/typecoercer.cpp:274-290 | splitting the printed form of any type list within the limits gives back the texts of its types |
| Signatures.SplitDecidesGrammar | src/dbus/typecoercer.cpp:274-290 | a signature is accepted if and only if it is a non-empty list of well-formed types within length and nesting limits; the pieces concatenate to it and each is a single complete type |
| Signatures.SingleSound | src/dbus/typecoercer.cpp:298-301 | a single complete type is the text of a type within the limits |
| Signatures.SingleComplete | src/dbus/typecoercer.cpp:298-301 | every type within the limits has a text that is a single complete type, and reads as it |
| Signatures.DepthBound | src/dbus/typecoercer.cpp:203-206 | a type nests no more containers than its arrays and structs allow, and one within the limits nests at most 64 |
| Scanner.ScanType | src/dbus/typecoercer.cpp:218-272 | the recursive scanner finds the end of the complete type that the grammar reads at that place, or none, and the depth it reports is the depth of the type's tree |
| Scanner.ScanStruct | src/dbus/typecoercer.cpp:251-270 | the same for a struct, with its field loop |
| Scanner.SplitTypes | src/dbus/typecoercer.cpp:274-290 | the loop yields the pieces of the signature, none when it is malformed |
| Scanner.TypeDepth | src/dbus/typecoercer.cpp:292-296 | the depth of a single complete type is that of its tree |
| Scanner.IsSingleCompleteType | src/dbus/typecoercer.cpp:298-301 | decides whether a text is exactly one complete type |
| Scanner.StructFields | src/dbus/typecoercer.cpp:318-321 | the fields of a struct text are the texts of the fields of its type, in order |
| Scanner.TextShowsShape | src/dbus/typecoercer.cpp:303-321 | the tests on the first characters of a complete type tell basic, variant, `ay`, `as`, dict, array and struct apart as its tree does |
| Scanner.PartsAreSingle | src/dbus/typecoercer.cpp:303-321 | element, dict value and struct fields cut out of a single complete type are single complete types |
| Integers.CoerceIntegerExact | src/dbus/typecoercer.cpp:144-158 | integer coercion succeeds on exactly the JSON numbers (below 2^63) and decimal strings whose mathematical value is in the range of the type, and yields that value; no step overflows 64 bits |
| Integers.ParseIntegerValue | src/dbus/typecoercer.cpp:45-92 | sign and magnitude are those of the mathematical value; refused are only numbers outside int64 and decimal strings of more than 64 bits |
| Integers.VariantValue | src/dbus/typecoercer.cpp:114-142 | the range test is the range of the type, INT64_MIN and UINT64_MAX included, and the casts keep the value |
| Integers.DecimalAccepted | src/dbus/typecoercer.cpp:45-60 | every integer of a type's range is accepted from its own decimal text |
| Integers.TrimmedOnly | src/dbus/typecoercer.cpp:48-49 | what is read of a text is what stands between the spaces at its ends |
| Texts.Base64RoundTrip | src/dbus/typecoercer.cpp:166-178 | decoding undoes the encoding of section 4 of RFC 4648 for every byte string |
| Texts.DecodedTexts | src/dbus/typecoercer.cpp:169-176 | decoded are exactly the texts of the alphabet and those whose last group of four ends in one or two "=" |
| Texts.ObjectPathExact | src/dbus/typecoercer.cpp:160-164 | every valid object path is accepted; an accepted text is valid if and only if it does not end in a line break, and one that does exists |
| Wire.TableIsNative | src/dbus/typecoercer.cpp:350-409 | the element table of the bridge holds every single-letter type but the descriptor |
| Json.InsertKeepsObject | src/dbus/dbusbridge.cpp:415-431 | inserting a member keeps an object sorted and without duplicates, and changes that key only |
| Coercer.CoerceByteArray | src/dbus/typecoercer.cpp:166-197 | bytes come from base64 text or from a list whose every item is a byte; anything else fails |
| Coercer.BytesOfItems | src/dbus/typecoercer.cpp:184-195 | a list stands for bytes if and only if every item is one, and for those bytes in order |
| Coercer.CheckVariant | src/dbus/typecoercer.cpp:497-538 | pass 1 accepts as variant content exactly the trees the specification `AcceptsVariant` does |
| Coercer.CheckExplicit | src/dbus/typecoercer.cpp:504-512 | the `@dbus` branch accepts exactly one complete type that fits in the depth left, with a value of it |
| Coercer.CheckValue | src/dbus/typecoercer.cpp:540-618 | pass 1, working on the text of the signature, accepts exactly what the parsed type accepts |
| Coercer.CheckDict | src/dbus/typecoercer.cpp:569-590 | the same for dicts |
| Coercer.CheckArray | src/dbus/typecoercer.cpp:591-604 | the same for arrays |
| Coercer.CheckStruct | src/dbus/typecoercer.cpp:605-618 | the same for structs |
| Coercer.NullRejected | src/dbus/typecoercer.cpp:413-465 | null is accepted for no type at all |
| Values.ValueTyped | src/dbus/typecoercer.cpp:620-741 | an accepted tree stands for a well-typed D-Bus value of the type it was accepted for |
| Values.ContentTyped | src/dbus/typecoercer.cpp:653-676 | accepted variant content stands for a well-typed value |
| Values.ValueWithin | src/dbus/typecoercer.cpp:540-618 | its leaves lie under at most 64 containers and each typed part nests at most 32 arrays and 32 structs, although `ay` and `as` are not checked dynamically |
| Values.ContentWithin | src/dbus/typecoercer.cpp:497-538 | the same for variant content |
| Values.BoxAccepted | src/dbus/typecoercer.cpp:504-512 | a value with its type by name is accepted if and only if the name is one complete type that fits behind the variant and the value is one of it; it stands for a variant of that value |
| Builder.OpsRead | src/dbus/typecoercer.cpp:678-714 | the operations written for an accepted tree read back, from any place in a stream, as exactly the value it stands for, and end right there: brackets match, element types are known and every element has its type |
| Builder.ContentDenotes | src/dbus/typecoercer.cpp:653-676 | no variant is left empty; its content is sent as the value the tree stands for |
| Builder.BuiltDenotes | src/dbus/typecoercer.cpp:716-741 | pass 2 is total: whatever pass 1 accepts is built into something sent as that value, the native `ay` and `as` included |
| TypeCoercer.ArgumentWriter.Append | src/dbus/typecoercer.cpp:633-649 | an operation goes to the end of the stream |
| TypeCoercer.Write | src/dbus/typecoercer.cpp:678-714 | the recursive writer appends the operations of the value and nothing else |
| TypeCoercer.WriteDict | src/dbus/typecoercer.cpp:687-698 | the same for dicts |
| TypeCoercer.WriteEntries | src/dbus/typecoercer.cpp:692-697 | the entry loop appends the operations of every member, in order |
| TypeCoercer.WriteArray | src/dbus/typecoercer.cpp:699-705 | the same for arrays |
| TypeCoercer.WriteStruct | src/dbus/typecoercer.cpp:706-713 | the same for structs |
| TypeCoercer.Build | src/dbus/typecoercer.cpp:716-741 | builds the variant that the specification of pass 2 names |
| TypeCoercer.VariantContent | src/dbus/typecoercer.cpp:653-676 | builds the content that the specification of pass 2 names |
| TypeCoercer.Coerce | src/dbus/typecoercer.cpp:747-760 | succeeds on exactly the accepted trees; what it returns is sent as the one value the tree stands for, of the type asked for, within the limits of a message |
| Natural.NaturalDepth | src/dbus/dbusbridge.cpp:37-52 | the early cut-off never changes whether the limit is passed, and below it the count is exact |
| Natural.JsonToVariant | src/dbus/dbusbridge.cpp:196-232 | builds the natural variant of a value |
| Natural.NaturalDepthDecides | src/dbus/typecoercer.cpp:500-538 | without `@dbus`, the coercer accepts a value in a variant if and only if it holds no null and its natural depth is within the limit |
| Natural.NaturalContentAgrees | src/dbus/typecoercer.cpp:653-676 | the coercer's content of such a value is the natural mapping of the bridge |
| Natural.NaturalSendable | src/dbus/dbusbridge.cpp:155-161 | a loosely mapped argument can be sent if and only if it holds no null; it is well typed and, within the natural depth, keeps the limits of a message |
| Replies.NaturalNumber | src/dbus/dbusbridge.cpp:201-213 | an integer goes out as an "i" if and only if it is one of 32 bits, as an "x" if and only if it is another one of 64 bits, and every other number as a double |
| Replies.NaturalBack | src/dbus/dbusbridge.cpp:196-232 | whatever is mapped loosely, without null and with objects in key order, is shown as the very JSON it was made from, integers beyond 2^53 as their decimal texts |
| Replies.NaturalContentBack | src/dbus/typecoercer.cpp:653-676 | so is the content of a variant in which no type is named, and both mappings send the same |
| Depths.CoercedOpens | src/dbus/typecoercer.cpp:513-534 | whatever coerce() returns opens at most 65 containers, and at most 64 if and only if no empty list or object of the natural mapping stands at depth 64 |
| Depths.LooseOpens | src/dbus/dbusbridge.cpp:33-52 | the same for a loosely mapped argument that passes the depth test |
| Depths.DepthIsReached | src/dbus/dbusbridge.cpp:37-52 | a value has no larger natural depth than its message opens containers, so nothing is refused in vain |
| Depths.EmptyListPasses | src/dbus/typecoercer.cpp:513-523 | an empty list at depth 64 is accepted and opens container 65 |
| Depths.LimitIsPassed | src/dbus/dbusbridge.cpp:155-165 | whole arguments that pass the limit: 32 nested lists mapped loosely, and for "v" an object around 30 of them |
| Demarshaller.Reader.Next | src/dbus/dbusbridge.cpp:312-350 | extracting moves the cursor past exactly one element |
| Demarshaller.ExtractBasic | src/dbus/dbusbridge.cpp:312-350 | gives the element and moves past it, or gives nothing and does not move, when its type is unknown |
| Demarshaller.VariantToJson | src/dbus/dbusbridge.cpp:234-310 | a value outside a reader becomes the JSON of the recursive specification, which `Replies` pins down part by part |
| Demarshaller.ReplyToJson | src/dbus/dbusbridge.cpp:184-193 | no value gives null, one value its JSON, several the list of theirs in order |
| Demarshaller.DemarshallElement | src/dbus/dbusbridge.cpp:368-437 | terminates on every tree, unknown types included; true moves the cursor past exactly one element, false leaves it; the result is that of the recursive specification |
| Demarshaller.DemarshallItems | src/dbus/dbusbridge.cpp:393-413 | the loop over an array or struct stops behind the first unreadable element, and leaves the outer containers as they were |
| Demarshaller.DemarshallEntries | src/dbus/dbusbridge.cpp:415-432 | the same for dicts |
| RoundTrip.LeafBack | src/dbus/dbusbridge.cpp:248-282 | every basic value but a descriptor is coerced back from its JSON |
| RoundTrip.KeyBack | src/dbus/dbusbridge.cpp:357-366 | every dict key but a descriptor is coerced back from its text, a double as long as this very text reads back |
| RoundTrip.ReplyBack | src/dbus/dbusbridge.cpp:368-437 | coercing what a reply was decoded to, with the reply's type, is accepted and gives the reply back, dicts in key order |
| RoundTrip.ReplyRoundTrip | src/dbus/typecoercer.cpp:747-760 | the same at the root, on the text of the signature; of doubles only those that are dict keys, and only the ones that occur, have to read back |
| RoundTrip.CanonicalKeepsEntries | src/dbus/dbusbridge.cpp:415-432 | for distinct keys, key order is only a reordering: the same keys with the same values |
| Replies.DecodedShows | src/dbus/dbusbridge.cpp:368-437 | in whatever D-Bus delivers, every basic value can be read back from its JSON, arrays and structs have the items of their elements up to the first of unknown type, which is marked with its signature, dicts have exactly the keys of their entries with the value of the last one, and variants show what they hold |
| Replies.ContentShows | src/dbus/dbusbridge.cpp:234-310 | the same for a value of a reply, which is shown as in a variant |
| Replies.BoxIsTransparent | src/dbus/dbusbridge.cpp:240-241 | a variant, however often boxed, is shown as its content |
| Replies.ContentBack | src/dbus/dbusbridge.cpp:184-193 | the JSON of a reply, or of a variant of it, is accepted as an argument of its type and stands for the reply |
| Replies.VariantBack | src/dbus/typecoercer.cpp:504-512 | with its type by name, the JSON of a variant is accepted as a variant and stands for it |
| Replies.MarkerExactly | src/dbus/dbusbridge.cpp:305-309 | the marker stands for the elements of unknown type, boxed or not, and for nothing else but the text that reads like it |
| Glob.GlobMatch | src/core/callpolicy.cpp:8-33 | true if and only if the text is in the language of the pattern, and it terminates |
| Glob.EarlierStarLosesNothing | src/core/callpolicy.cpp:17-25 | a match that uses a later position for an earlier star also exists for the last star, so one backtracking point is enough |
| Glob.LiteralPattern | src/core/callpolicy.cpp:260-263 | a pattern without '*' matches itself only |
| CallPolicy.ParsePatternExact | src/core/callpolicy.cpp:230-243 | a text parses to a pattern if and only if it is its service, interface and method in that notation; the cut is unique |
| CallPolicy.AllowedExactly | src/core/callpolicy.cpp:144-183 | when a call is allowed, as a condition on which lists match, independent of the order inside them |
| CallPolicy.DecidedByFirst | src/core/callpolicy.cpp:144-183 | the decision names the switch it was taken by, or the first matching rule of the first list that has one, or the default |
| CallPolicy.LiteralRule | src/core/callpolicy.cpp:245-266 | a rule without "*" matches if and only if method and service are its own, the latter up to the connection that owns it, and so is the interface, or it is unknown and the rule refuses |
| CallPolicy.StarRule | src/core/callpolicy.cpp:260-266 | owners play no part for a service with a "*"; a rule for every interface and method matches what its service does |
| CallPolicy.UnknownCoversAll | src/core/callpolicy.cpp:245-259 | what is allowed with an unknown interface is allowed with every interface |
| CallPolicy.SameConnectionSameRefusal | src/core/callpolicy.cpp:260-265 | a refusing rule without '*' in its service matches every name of a connection alike |
| CallPolicy.SameConnectionSameRules | src/core/callpolicy.cpp:167-179 | so do the refusing lists when no service has a '*' |
| CallPolicy.Bus.ServiceOwner | src/core/callpolicy.cpp:153-165 | a lookup: it is recorded with the bus, and gives its answer |
| CallPolicy.OwnerMemo.Owner | src/core/callpolicy.cpp:153-165 | answers as the bus does; the bus has been asked for exactly the names of the memo, once each |
| CallPolicy.Matches | src/core/callpolicy.cpp:245-266 | decides whether a rule matches, for every bus that gives the answers seen so far to the names asked so far |
| CallPolicy.FindRule | src/core/callpolicy.cpp:167-179 | finds the first rule that matches, in the same sense |
| CallPolicy.CallPolicy.constructor | src/core/callpolicy.cpp:98-107 | starts with the parsed denylist and everything else refused or empty |
| CallPolicy.CallPolicy.Configure | src/core/callpolicy.cpp:109-135 | replaces the whole configuration, or none of it when a pattern is malformed |
| CallPolicy.CallPolicy.DestinationAllowed | src/core/callpolicy.cpp:137-142 | a destination it refuses is refused by every evaluation |
| CallPolicy.CallPolicy.Evaluate | src/core/callpolicy.cpp:144-183 | the decision with the memo is the one with direct lookups; the bus was asked for the listed names and no other, none of them twice, and its other answers could not have changed the decision |
| Audit.DecisionsAreSuch | src/core/callpolicy.cpp:144-183 | every decision names one of the fixed rules or a configured pattern under the prefix of its list |
| Audit.LineFormat | src/core/callpolicy.cpp:205-215 | the fields of a line, in their order |
| Audit.AuditLineIsUnambiguous | src/core/callpolicy.cpp:205-215 | calls whose interface holds no space and is not "*" have equal lines only for the same call and the same decision |
| Audit.ConfusedExactly | src/core/callpolicy.cpp:205-215 | the line of a judged call is also that of another one, with an interface as a caller may give it, if and only if its interface is "*" or begins with such a name and a space behind which the line reads as a rule |
| Audit.OneLineTwoCalls | src/core/callpolicy.cpp:205-215 | such a line: one call allowed by a rule, the other by none |
| Audit.LogIsDecodable | src/tools/dbustools.cpp:93-100 | the whole log tells all judged calls and decisions in order, when interfaces are made of name characters and rules hold no line break |
| Resolver.ResolveMethodFromXml | src/dbus/interfaceresolver.cpp:9-65 | the reader loop computes the verdict of the event machine |
| Resolver.PropertyTypeFromXml | src/dbus/interfaceresolver.cpp:90-116 | the loop with its early return finds the first property the machine collects |
| Resolver.ResolvesTree | src/dbus/interfaceresolver.cpp:9-65 | over every introspection document a method is Unique if and only if one declaration of it stands directly under the root, and resolves to that one; Ambiguous if and only if there are several, Unavailable if and only if there is none; outside Unique with the interface asked for and no signature; a reader error makes everything Unavailable; child nodes never count |
| Resolver.PropertyOfTree | src/dbus/interfaceresolver.cpp:90-116 | a property has the type of its first declaration on that interface directly under the root |
| Resolver.ResolvesAgain | src/dbus/interfaceresolver.cpp:9-65 | resolving again with the interface found gives the same interface and signature |
| Resolver.KeepsInterface | src/dbus/interfaceresolver.cpp:56-64 | on any events at all the result carries the interface asked for, unless none was and one was found |
| CallPath.NameCharactersOnly | src/tools/dbustools.cpp:75-91 | accepts exactly the texts made of letters, digits, '_' and the extra characters |
| CallPath.ResolveMethod | src/dbus/interfaceresolver.cpp:67-88 | a failed introspection resolves to nothing, another to what its XML declares |
| CallPath.ConvertArgument | src/dbus/dbusbridge.cpp:154-170 | an argument is converted if and only if it is convertible; a typed one is sent as the value it stands for, of the declared type, within the limits |
| CallPath.CallMethod | src/dbus/dbusbridge.cpp:114-182 | when a message is sent, to which address, and that its arguments are those given, each in its place and sent as what it stands for there |
| CallPath.ArgumentsAsGiven | src/dbus/dbusbridge.cpp:133-169 | but for one exception, argument number i is sent as the value that is given at place i stands for in the type at place i of the signature, or loosely in an untyped call |
| CallPath.TypedMessageSignature | src/dbus/dbusbridge.cpp:148-151 | the signature of a typed message is valid and splits into the declared types |
| CallPath.SetSendsDeclaredType | src/dbus/dbusbridge.cpp:133-147 | the exception: a Properties.Set without "@dbus" of a declared property is sent if and only if the value fits its type, and then as a variant of that type behind the interface and the property as given |
| CallPath.JudgedCoversSent | src/dbus/dbusbridge.cpp:122-176 | whatever the second introspection says, the interface sent is one the judgement allows |
| CallPath.ReadArguments | src/tools/dbustools.cpp:271-298 | a call goes on exactly when its arguments are complete and its names made of D-Bus name characters |
| CallPath.AskedExactly | src/tools/dbustools.cpp:271-298 | which argument gives which part of the call, and when the call goes on |
| CallPath.FindTarget | src/tools/dbustools.cpp:300-312 | the judged target carries the caller's interface or the one introspection names; a refused destination is not introspected |
| CallPath.JudgedTarget | src/tools/dbustools.cpp:300-312 | the interface that is judged: the one given; else, unless the destination is refused by itself, the one of the only declaration in the introspection document; none when there are none or several; no call after a timeout |
| CallPath.Call | src/tools/dbustools.cpp:270-328 | every judged call has the decision of the policy and its audit line; a message is sent only when allowed, to the judged bus, service, path and method, with the judged interface if there is one, and always one the policy allows |
| CallPath.JudgedNames | src/tools/dbustools.cpp:294-312 | the bus, service, path and method of every judged call are made of name characters, its interface too unless introspection data named it |
| Framing.CutIsUnique | src/mcp/stdiotransport.cpp:40-43 | a stream has exactly one cut into lines and an unfinished rest, the one the loop finds |
| Framing.CutContinues | src/mcp/stdiotransport.cpp:38-43 | cutting a prefix, then its rest with what follows, is cutting the whole |
| Framing.ChunkingIsInvisible | src/mcp/stdiotransport.cpp:26-63 | the signals of any sequence of reads are those of the whole stream |
| Framing.Take | src/mcp/stdiotransport.cpp:44-61 | one line gives no signal when blank, else the one its parse calls for |
| Framing.FrameSignals | src/mcp/stdiotransport.cpp:44-61 | whichever way its line ends, a frame is signalled as the object it parses to, as an invalid request when it is another value, as a parse error when it is no JSON, and not at all when it is blank |
| Framing.StdioTransport.OnReadable | src/mcp/stdiotransport.cpp:26-63 | after every read the lines cut so far and the buffer are the cut of all that was received, the buffer holds no newline, and the signals are those of the new lines |
| Engine.ShutdownIs | src/mcp/server.cpp:80-99 | shutting down sends each open subscription one completion and then one cancellation, in order, whether or not writes fail meanwhile, and announces the end if nothing is in flight; a second shutdown does nothing |
| Engine.SendIs | src/mcp/stdiotransport.cpp:65-80 | sending changes nothing but the output, except that the first failing write performs that shutdown |
| Engine.ClosingSubscriptions | src/mcp/server.cpp:286-302 | the loop sends the farewells of all subscriptions, re-entered shutdowns included |
| EngineRequests.CallIsDecided | src/mcp/server.cpp:329-358 | a call with an unused id, of either era, is accepted if and only if its parameters are an object that names a known tool and whose arguments are an object, null or absent; it then gets a new flag, its own table entry, task and place in the right queue; otherwise exactly one error is handed out |
| EngineRequests.OutOfOrderIsRefused | src/mcp/server.cpp:189-220 | a modern request without a served version or without capabilities gets the error that says which |
| EngineRequests.AnsweredAtOnce | src/mcp/server.cpp:148-266 | every other request that is neither a call nor a modern subscription gets one message, with its id: the result of its method and era, or the error for an unknown method or a cursor |
| EngineRequests.ListenIsOpened | src/mcp/server.cpp:268-284 | a subscription with an unused id is opened and then acknowledged, wherever the hash puts it; when that write is the first to fail it is closed with all the others |
| EngineRequests.DroppedInSilence | src/mcp/server.cpp:141-146 | nothing comes of a request whose id is in use, nor of a call or subscription while closing |
| EngineRequests.CancellationReaches | src/mcp/server.cpp:167-187 | a cancellation closes the subscription with its id and no other; else sets the flag of the call in flight with its id and forgets its era; else changes nothing |
| EngineRequests.IgnoredInSilence | src/mcp/server.cpp:111-123 | other notifications and responses of the client change nothing |
| EngineRequests.MalformedIsRefused | src/mcp/server.cpp:125-133 | every message that is neither request, notification nor response gets one error, under its id if it has one |
| EngineRequests.FrameIsRefused | src/mcp/server.cpp:101-109 | a frame that is no object gets the error of its kind; the end of the input shuts the server down |
| RunnerInvariant.SubmitKeeps | src/mcp/toolrunner.cpp:24-42 | submitting keeps the correspondence of calls in flight, flags, workers and queues |
| RunnerInvariant.CancelKeeps | src/mcp/toolrunner.cpp:44-51 | so does cancelling |
| RunnerInvariant.StartKeeps | src/mcp/toolrunner.cpp:16-17 | so does a worker taking a call, and the pools keep their capacity and order |
| RunnerInvariant.LoadKeeps | src/mcp/toolrunner.cpp:35-36 | so does a worker loading its flag |
| RunnerInvariant.ReturnKeeps | src/mcp/toolrunner.cpp:37-39 | so does a worker posting its result; serialized calls end in arrival order |
| RunnerInvariant.TakeKeeps | src/mcp/toolrunner.cpp:58-60 | so does taking a finished call, and the flag taken is the one its worker captured |
| EngineInvariant.RunKeeps | src/mcp/server.cpp:111-187 | the invariant holds after every interleaving |
| EngineInvariant.StepKeeps | src/mcp/server.cpp:111-373 | every step of the main thread and of the workers keeps it |
| EngineInvariant.RejectKeeps | src/mcp/server.cpp:125-133 | answering a malformed frame leaves every request as open as it was |
| EngineInvariant.RehashKeeps | src/mcp/server.cpp:288-302 | so does any other order of the subscriptions |
| EngineInvariant.RequestKeeps | src/mcp/server.cpp:137-165 | handling a request settles it: answered, dropped, accepted or opened as a subscription |
| EngineInvariant.FinishKeeps | src/mcp/toolrunner.cpp:58-65 | finishing a call answers it unless it was cancelled |
| EngineInvariant.CancelCallKeeps | src/mcp/server.cpp:178-181 | cancelling settles the request and forgets its era |
| EngineProperties.RequestsConserved | src/mcp/server.cpp:111-165 | per id and over every interleaving: requests received equal those answered, dropped, cancelled, closed by the client, and still open; no id is both a call and a subscription; malformed frames with the id are answered as often as they came |
| EngineProperties.SubscriptionsConserved | src/mcp/server.cpp:271-302 | per id: subscriptions opened equal those closed by the client, completed by the server, and still open; every completion got its cancellation; none is open once closing |
| EngineProperties.ModernCallsExact | src/mcp/server.cpp:354-357 | the era table holds exactly the modern calls in flight and not cancelled |
| EngineProperties.ResultsFollowCalls | src/mcp/server.cpp:360-373 | each tool result belongs to an accepted call with nothing about its id in between, carries what the worker of that call returned, and has a resultType exactly when that call's own request was modern |
| EngineProperties.CancelledNotAnswered | src/mcp/toolrunner.cpp:44-51 | after a cancellation no result is sent for the id until another request with it is accepted |
| EngineProperties.OneResultPerCall | src/mcp/toolrunner.cpp:58-62 | between two results for an id another call with it was accepted |
| EngineProperties.FinishTakesOwnFlag | src/mcp/toolrunner.cpp:58-60 | finish always takes the flag its own worker captured, whatever ids were reused |
| EngineProperties.PoolsKeepOrder | src/mcp/toolrunner.h:14-17 | at most four calls and one serialized call run; serialized calls are taken and end in arrival order |
| EngineProperties.EachCallEnds | src/mcp/toolrunner.cpp:30-65 | in every run, each accepted call that has left the runner ended once, before anything else happened to its id: cancelled, or with a result that carries what its own worker returned, in the form of its own era |
| EngineShutdown.ClosingOnlyDrains | src/mcp/server.cpp:329-335 | once closing, whatever comes, no call or subscription is added and the calls in flight only go |
| EngineShutdown.FinishedExactly | src/mcp/server.cpp:69-72 | the end has been announced if and only if the server is closing with nothing in flight |
| EngineShutdown.LastFinishAnnounces | src/mcp/toolrunner.cpp:58-65 | how often the last call to end announces it: twice exactly when the write of its own result is the first to fail |
| EngineShutdown.CancelledNeverRuns | src/mcp/toolrunner.cpp:33-36 | a call cancelled before its worker loads the flag never runs its tool, in any continuation |
| EngineShutdown.WrittenIsIssued | src/mcp/stdiotransport.cpp:65-80 | stdout holds a prefix of what was issued, all of it as long as no write failed |
| EngineShutdown.NeverStuck | src/mcp/toolrunner.cpp:24-65 | as long as a call is in flight some step takes one further |
| EngineShutdown.EndIsReached | src/mcp/server.cpp:80-99 | once closing, the steps that take calls further are bounded by the work left, one is possible while a call is in flight, and when none is the end has been announced |
| EngineResponses.ResponseInUse | src/mcp/server.cpp:111-146 | while an id is in use, a frame is answered with it if and only if the frame is no stray response, carries this id and has no usable method |
| EngineResponses.BareId | src/mcp/server.cpp:125-133 | an id alone is such a frame, and leaves the runner as it was |
| EngineResponses.AnsweredWhileOpen | src/mcp/server.cpp:125-146 | a run in which a call is answered with its id and still in flight and live |
| EngineResponses.StepEndings | src/mcp/toolrunner.cpp:58-65 | a step announces the end only where it reaches it, once unless the result of the last call is the first write to fail |
| EngineResponses.EndingsAtMostTwo | src/mcp/server.cpp:69-99 | no run announces the end more than twice, and those that do are the runs with such a step |
| EngineResponses.AnnouncedTwice | src/mcp/toolrunner.cpp:58-65 | such a run, for any tool |
| ToolRunner.ToolRunner.Submit | src/mcp/toolrunner.cpp:24-42 | the state of the objects is the one the model goes to; false for an id in flight |
| ToolRunner.ToolRunner.Cancel | src/mcp/toolrunner.cpp:44-51 | one store to the object found under the id puts the model's flag, the one its worker will load, into the cancelled set |
| ToolRunner.ToolRunner.StartNext | src/mcp/toolrunner.cpp:16-17 | a pool with an idle thread is one the model lets start, and starts the call that waits longest |
| ToolRunner.ToolRunner.LoadFlag | src/mcp/toolrunner.cpp:34-36 | the tool runs if and only if the object the call holds is not set, which is what the model's flag says |
| ToolRunner.ToolRunner.ReturnResult | src/mcp/toolrunner.cpp:37-39 | the result, empty for a call that did not run, is posted under the id without the flag |
| ToolRunner.ToolRunner.Take | src/mcp/toolrunner.cpp:58-61 | the object found under the posted id decides about the result as the flag of the finished call would |
| ToolRunner.SharedFlag | src/mcp/toolrunner.cpp:30-36 | the flag a waiting or running call holds is the one stored under its id |
| Server.Server.Send | src/mcp/stdiotransport.cpp:65-80 | takes the model's send step for some order of the subscriptions: silent when broken, written while writes succeed, and on the first failure the whole shutdown before it returns |
| Server.Server.Shutdown | src/mcp/server.cpp:80-99 | takes the model's shutdown step for some order of the subscriptions, and terminates although sending can re-enter it |
| Server.Server.CloseSubscriptions | src/mcp/server.cpp:286-302 | whatever order the hash gives them in, each subscription gets its farewell once and none is left |
| Server.Server.HandleListen | src/mcp/server.cpp:268-284 | wherever the hash puts the new subscription, it is opened before it is acknowledged, so a failing acknowledgment still says farewell to it; dropped when closing |
| Server.Server.OnMessage | src/mcp/server.cpp:111-373 | every message, with all its handlers, extends the run that the objects are at by that message |
| Server.Server.OnInvalidFrame | src/mcp/server.cpp:101-109 | so does every frame that cannot be parsed |
| Server.Server.OnClosed | src/mcp/server.cpp:60-99 | so does the end of the input, after which the server is closing |
| Server.Server.Finish | src/mcp/toolrunner.cpp:58-65 | so does every finished call: flag taken, result sent, end announced |
| Server.Server.ThreadStarts | src/mcp/toolrunner.cpp:16-17 | so does a thread taking a call |
| Server.Server.ThreadLoads | src/mcp/toolrunner.cpp:34-36 | so does a thread loading its flag |
| Server.Server.ThreadReturns | src/mcp/toolrunner.cpp:37-39 | so does a thread posting its result |
| Server.ObjectsObey | src/mcp/server.cpp:141-181 | in all states of the objects an era is kept only for a call whose flag is unset, no id is both a call and a subscription, none is subscribed once closing, and stdout holds what was handed out, in order |

## Left out

- ToolRunner.ToolRunner.StartNext: threads themselves are not modelled; a thread starting, loading its flag and returning are separate atomic steps in any order the pools allow.
- Server.Server.Send: which write fails first is a parameter (the number of writes that succeed); the contents of messages are reduced to their kind, id, era and result text.
- Server.Server.OnMessage: ids are taken to have distinct texts; the negotiated protocol version, the tool list and error texts are not modelled.
- CallPolicy.CallPolicy.Evaluate: the bus gives the same answers during one call; the entries of the built-in denylist are a parameter.
- RoundTrip.ReplyRoundTrip: for values without variants, descriptors and elements of unknown type, whose element types are in the table; doubles that are dict keys must read back from their own text; NaN and the infinities are not modelled.
- Integers.CoerceIntegerExact: JSON numbers are exact reals; the rounding of integers beyond 2^63 by the JSON parser is not modelled. Digits are the ASCII ones.
- Demarshaller.VariantToJson: the branches for plain Qt lists and maps, which QtDBus hands out only for `av` and `a{sv}` replies, are modelled by the container decoding; dict keys of types D-Bus does not allow are left empty.
- TypeCoercer.VariantContent: maps are kept in the order of the JSON object, which is key order.
- Uniqueness of the keys of a built dict: "1" and "01" coerce to one integer, and the code does not prevent it.
- Doubles: real numbers; their texts (dict keys of type `d`) are a parameter.
- JSON text parsing, XML tokenising, reading and writing file descriptors, D-Bus round trips, their timeouts and the connection: inputs of the model.
- The 2-second drain timer and the process exit behind it; what main() does on `finished`.
- Texts of errors, refusals and log lines other than the audit line.
- The tool registry, the other tools, the backends, plugin loading, the protocol version negotiation and main(): wiring that would only add easy members.
