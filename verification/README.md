# Verification of ktranslate's data plane

A Dafny model of the in-memory machinery of ktranslate, with proofs of what it keeps. Everything that is
input or output, and every clock, checksum, serializer and filter, is a parameter or is left out.

| files | what they model |
|---|---|
| FlowRecord, NetflowWire, NetflowLayout, NetflowFormat, NetflowReader, NetflowRoundTrip, NetflowForeign, BigEndian | the NetFlow v9 and IPFIX encoder, the decoder behind it, and what comes back |
| ExportSpans, NetflowExport | cutting a batch into messages, the shrinking limit, and an export read back as a whole |
| FlowBatch, FlushMeaning, FlowPool | one worker of the flow pipeline: its object pool, batch, sampling and split by company |
| RouteMatching, RouteSelection, RouteAnswers, RouteTrees, RouteTemplate, RouteUrl, RouteExact | the HTTP router: nested matching, templates, building URLs and extracting variables |
| RollupRows, RowMeaning, RowFolds, SumRollup | rows, keys and amounts, and the sum rollup with its queue and windows |
| Sorting, TopRollups, SplitJoin, RollupAttributes | top-K exports, and reading a rollup's key back into attributes |
| CacheStore, CacheRollup, ExportMeaning | the cached rollup with its emergency cleanup, and what both kinds export |
| DeviceTags, PrunedPass, ProviderTags | precedence of SNMP tags |
| DeviceSet | the device set after a discovery |
| KflowCustoms, KflowRoundTrip | custom attributes in the kflow format |
| PromLabels | label vectors of the Prometheus format |
| OidText | numbers as OID text |
| Integers, Decimal, Options | fixed-width integers, decimal text, optional values |

Code that changes things step by step is a class or a method with loops, proved against functions and
predicates on values; the theorems are about those. A range over a Go map picks its keys in an arbitrary order,
and where a loop inserts into the map it ranges over, the model lets it visit the inserted keys or not.
Goroutines are atomic steps in any sequence. The books that some classes keep (`Ledger`, `Book`) are ghost state.

Where the code does not do what one would expect, the model follows the code, a lemma names the input, and
another says exactly when it goes well:

- An IPFIX message of 512 flows or more has a wrapped length, and a reader gets n mod 512 flows
  (`IpfixRoundTrip`, `IpfixIsLosslessIff`). The configured limit of 510 keeps clear of it (`ExportIsReadBackIff`).
- A limit so large that keep + limit overflows exports nothing (`ExportedIff`).
- A cleanup with a single entry panics (`Cache.AddRow`), and one among entries of the same age removes them all,
  the one just inserted included (`SameAgeEmpties`, `NewestSurvivesIff`).
- The sum rollup's minimum is zero from the second window on (`LaterMinimum`).
- A rollup key with the join token in a part, or without dimensions, makes reading it panic (`KeyIsReadBackIff`).
- A subrouter's method-not-allowed handler never answers (`InnerNotAllowedHandlerIsLost`). With tests or methods added
  behind a subrouter the wrong handler or route name can answer (`TestAfterSubrouterMisdirects`,
  `MethodAfterSubrouterMisreports`); `RefusedLeavesTraceIff` says for every request when the refusal of a route
  leaves something behind, and `LeftoverAnswers` what comes of it. With a handler for refusals behind a method
  "method not allowed" can be wrong (`HandlerBehindMethodMisreports`, `ParentSelectsIff`, `BuiltIsWellFormedIff`).
- Values can come back changed from a URL (`AmbiguousWithoutSeparator`, `RoundTripIff`; `SlashIsTaken` for custom
  patterns), and with an optional slash at the end a URL is built from more values than match (`UrlIsBuiltIff`,
  `SlashBehindLast`). Where the last value is empty that is not only so for a value with a slash behind it:
  /{a}/{b} makes /x/y/ of "x/y" and "" (`SlashedPieces`).
- The purge number of one device leaks to those after it (`NumbersLeak`, `GlobalNumberDecidesIff`), and a tag key
  prefixed twice makes the outcome of a pass depend on the order of a map (`NestedDependsOnVisits`,
  `PassIsDeterminedIff`; `PrunedPassIsDeterminedIff` for the keys that stay).
- Attribute names that share a checksum lose one of them (`CollisionLoses`, `CustomsRoundTripIff`).

`dafny verify dfyconfig.toml` checks all of it.

## Model

| member | source | states |
|---|---|---|
| FlowRecord.BuildNumbers | pkg/util/ic/proto.go:152-158 | whatever the order in which the names are visited, every protocol name gets a number that has that name, although several numbers share a name |
| FlowRecord.ReceivedIsSentIff | pkg/formats/netflow/netflow.go:372-454 | the flow a receiver obtains is the one that was sent exactly if every field fits its column |
| NetflowWire.RecordSize | pkg/formats/netflow/netflow.go:76-99 | every record has 124 bytes, whatever the flow |
| NetflowWire.SetsSize | pkg/formats/netflow/netflow.go:339-370 | the sets of a message of n flows take 96 + 128n bytes |
| NetflowWire.IpfixLengthIsTrueIff | pkg/formats/netflow/ipfix.go:44-51 | the 16-bit length in an IPFIX header is the length of the message exactly for n <= 511 |
| NetflowFormat.Jchf.SetChfField | pkg/formats/netflow/netflow.go:181-337 | the object after the assignment is the one the specification gives for the column and value, or the call is refused and nothing changes |
| NetflowFormat.EncodeTemplate | pkg/formats/netflow/netflow.go:358-370 | the template body that the readers parse |
| NetflowFormat.EncodeFlow | pkg/formats/netflow/netflow.go:372-454 | the columns of a flow, in the order of the table |
| NetflowLayout.TemplateLayout | pkg/formats/netflow/netflow.go:358-370 | the first 96 bytes of the sets: the number of the template set, template 256 and 22 columns with their IANA numbers and widths |
| NetflowLayout.ObservationCell | pkg/formats/netflow/netflow.go:439-440 | bytes 108 to 116 of a record hold the low 16 bits of the company above the device |
| NetflowLayout.TimeCells | pkg/formats/netflow/netflow.go:441-444 | bytes 116 to 124 hold the start, and an end 60 seconds later |
| NetflowLayout.FlagCells | pkg/formats/netflow/netflow.go:401-406 | bytes 0 to 4 hold the number of the protocol, zero for an unknown one, and the low bits of tos and flags |
| NetflowLayout.MacCells | pkg/formats/netflow/netflow.go:386-410 | bytes 4 to 16 hold the first six octets of each hardware address that parses, else zeros |
| NetflowLayout.AddressCells | pkg/formats/netflow/netflow.go:375-382 | an IPv4 address is in bytes 16 to 24, an IPv6 address in bytes 28 to 60, and its other column is zero |
| NetflowLayout.PortCells | pkg/formats/netflow/netflow.go:415-418 | bytes 24 to 28 hold the low 16 bits of the ports |
| NetflowLayout.EndpointCells | pkg/formats/netflow/netflow.go:423-430 | bytes 60 to 76 hold the systems, and the low 32 bits of the interfaces |
| NetflowLayout.AmountCells | pkg/formats/netflow/netflow.go:431-438 | bytes 76 to 108 hold bytes and packets, in and out |
| NetflowLayout.PrintsAsV4Iff | pkg/formats/netflow/netflow.go:181-337 | what is read is an IPv4 address exactly for four octets, or sixteen with the mapped prefix |
| NetflowRoundTrip.SetReads | pkg/formats/netflow/netflow.go:339-356 | from a set and what follows it a reader takes the id, the true length, the body and exactly the rest, as long as the length fits 16 bits |
| NetflowFormat.WriteFlows | pkg/formats/netflow/ipfix.go:27-42 | one padded data set for each flow, in order |
| NetflowFormat.PackIpfix | pkg/formats/netflow/ipfix.go:10-64 | the IPFIX message of a batch, and none for an empty batch |
| NetflowFormat.Pack9 | pkg/formats/netflow/netflow9.go:10-58 | the NetFlow v9 message of a batch |
| NetflowFormat.DecodeRecord | pkg/formats/netflow/ipfix.go:87-99 | the flow that a record stands for, or none if a field is refused |
| NetflowFormat.Decode | pkg/formats/netflow/ipfix.go:66-85 | the flows of all data sets of a message, in order |
| NetflowRoundTrip.TemplateReadBack | pkg/util/netflow/ipfix/packet.go:398-490 | the template set is read back as the template that was written |
| NetflowRoundTrip.RecordReadBack | pkg/util/netflow/ipfix/packet.go:603-668 | a data record, with what follows it, is read back column by column |
| NetflowRoundTrip.EachColumnSets | pkg/formats/netflow/netflow.go:181-337 | each column, once read, sets its part of the flow and leaves the others alone |
| NetflowRoundTrip.RecordDecodes | pkg/formats/netflow/ipfix.go:87-99 | all columns of a record together give the received flow |
| NetflowRoundTrip.SetsReadBack | pkg/util/netflow/ipfix/packet.go:53-195 | walking the sets of a message by their lengths yields its data sets in order |
| NetflowForeign.AllRecordsRead | pkg/util/netflow/ipfix/packet.go:603-668 | all records of a set of any exporter are read in order, and the padding of v9 is not |
| NetflowForeign.AllTemplatesRead | pkg/util/netflow/ipfix/packet.go:398-443 | all templates of a set are read in order, and up to four bytes behind them are padding |
| NetflowForeign.VariableReads | pkg/util/netflow/ipfix/packet.go:658-671 | fields of variable length, with one or three bytes of length in front |
| NetflowForeign.EnterpriseReads | pkg/util/netflow/ipfix/packet.go:268-298 | specifiers of enterprise elements |
| NetflowForeign.PlainReads | pkg/util/netflow/ipfix/packet.go:268-298 | other specifiers, and all of v9 |
| NetflowForeign.UnknownIsAbsent | pkg/util/netflow/ipfix/packet.go:633-656 | elements that are not in the dictionary have no value |
| NetflowForeign.NumbersReadShort | pkg/util/netflow/translate/translate.go:141-161 | numbers in fewer bytes than their type has |
| NetflowForeign.UnknownSetSkipped | pkg/util/netflow/ipfix/packet.go:53-195 | a data set without a template is passed over, and reading goes on behind it |
| NetflowForeign.ReservedSets | pkg/util/netflow/ipfix/packet.go:53-195 | the numbers below 256 that mean nothing are passed over, 0 and 1 fail the message |
| NetflowForeign.OptionsEnd | pkg/util/netflow/ipfix/packet.go:53-195 | a set of options templates, by its number, is where the model ends |
| NetflowForeign.BrokenLengthFails | pkg/util/netflow/ipfix/packet.go:53-195 | a set length that is no longer than the header, or longer than what is left, fails the message |
| NetflowForeign.OtherVersionFails | pkg/util/netflow/ipfix/packet.go:53-195 | a template of the other version is not used |
| NetflowForeign.TemplateKnown | pkg/util/netflow/ipfix/packet.go:445-455 | a template is known in its own domain and replaces one of its number |
| NetflowForeign.BrokenHeadersFail | pkg/util/netflow/ipfix/packet.go:206-243 | messages that are too short, or whose length is not in order, fail |
| NetflowForeign.OtherMessagesFail | pkg/formats/netflow/netflow.go:151-175 | messages of any other version fail |
| NetflowForeign.UnnamedProtocol | pkg/formats/netflow/netflow.go:187-192 | a protocol number without a name is read as no name |
| NetflowForeign.EmptyRecordsStick | pkg/util/netflow/ipfix/packet.go:603-631 | records of no length keep the reader in its loop for good |
| NetflowRoundTrip.IpfixRoundTrip | pkg/formats/netflow/netflow.go:151-175 | reading the IPFIX message of n flows yields the first n mod 512 of them, whatever templates the session holds |
| NetflowRoundTrip.V9RoundTrip | pkg/formats/netflow/netflow9.go:10-93 | reading the NetFlow v9 message yields exactly the flows that its 16-bit count covers |
| NetflowRoundTrip.IpfixIsLosslessIff | pkg/formats/netflow/ipfix.go:10-99 | an IPFIX message gives back its flows exactly if there are at most 511 and all are in range |
| NetflowRoundTrip.V9IsLosslessIff | pkg/formats/netflow/netflow9.go:10-93 | a v9 message gives back its flows exactly if there are at most 65534 and all are in range |
| ExportSpans.SliceBounds | pkg/cat/kkc.go:488-504 | the loop, in 64-bit integers: consecutive spans of [0, keep), or none at all if its bound overflows |
| ExportSpans.CutsCover | pkg/cat/kkc.go:486-504 | the spans are an exact ordered partition: their pieces put together are the kept prefix |
| ExportSpans.CutsBounds | pkg/cat/kkc.go:479-484 | no span is empty or longer than the effective limit |
| ExportSpans.ExportedIff | pkg/cat/kkc.go:488-504 | everything is exported, in ceil(keep/b) spans, exactly if there is nothing to export or keep + b fits 64 bits; otherwise nothing is |
| ExportSpans.ExportBatches | pkg/cat/kkc.go:508-518 | the outputs of the pieces in order, without those that fail to serialize |
| ExportSpans.OutputsAre | pkg/cat/kkc.go:508-518 | one output for every piece, in order, where all serialize |
| ExportSpans.ShrinksToOne | pkg/cat/kkc.go:463-467 | from one or more, shrinking stays at one or more, never grows, and strictly shrinks down to one |
| ExportSpans.ShrunkIs | pkg/cat/kkc.go:463-467 | each shrink takes away a quarter, rounded up |
| NetflowExport.LimitStays | config.go:656-658 | a loaded limit stays between 1 and 510, however often it shrinks |
| NetflowExport.ExportIsReadBackIff | config.go:18-20 | reading the messages of a whole export gives back the kept flows in order exactly if all are in range, for every loadable limit and any number of shrinks |
| FlowBatch.KeptOf | pkg/cat/kentik.go:310 | sampling keeps at least one flow and no more than there are |
| FlushMeaning.KeptIs | pkg/cat/kentik.go:310 | one flow in every sample rate, rounded down, but never none |
| FlowBatch.SplitByCompany | pkg/cat/kentik.go:317-324 | the flows of each company, in their order |
| FlushMeaning.OneCompany | pkg/cat/kentik.go:317-324 | the flows of a batch of one company stay in their order |
| FlowBatch.Serialize | pkg/cat/kentik.go:326-333 | one output for every company that serializes, in whatever order |
| FlowBatch.SplitsArePartition | pkg/cat/kentik.go:317-334 | where serializing succeeds the outputs are a stable partition of the kept flows by company |
| FlowBatch.FlushFits | pkg/cat/kentik.go:302-334 | no output of a flush is empty or longer than the batch |
| FlowPool.Shuffle | pkg/cat/kentik.go:307-309 | a permutation of the batch |
| FlowPool.Worker.constructor | pkg/cat/kkc.go:96-106 | 8000 different objects, all free |
| FlowPool.Worker.Give | pkg/cat/kentik.go:336-339 | a send back to the pool, allowed only where it cannot block |
| FlowPool.Worker.Counts | pkg/cat/kentik.go:281-344 | in every state free and batched objects are 8000 together, all different |
| FlowPool.Worker.SendBytesOn | pkg/cat/kentik.go:281-344 | a flush enriches the batch in place, hands all of it to the rollups, sends what the sampled and split batch comes to, empties the batch and fills the pool |
| FlushMeaning.SampledRates | pkg/cat/kentik.go:305-315 | every item of a sampled flush is a flow of the batch with its rate times the configured one, modulo 2^32 |
| FlushMeaning.SampledCount | pkg/cat/kentik.go:310-324 | as many are sent as are to be kept |
| FlushMeaning.UnsampledSent | pkg/cat/kentik.go:302-334 | any other flush sends exactly the items of the batch whose companies serialize |
| FlushMeaning.NothingSent | pkg/cat/kentik.go:281-303 | with nothing but rollups configured no flow is sent |
| FlushMeaning.ItemsStart | pkg/cat/jchf.go:525-610 | a flow starts with its own rate, and enrichment adds what is found for it |
| FlowPool.RolledMore | pkg/cat/kentik.go:291-300 | with rollups, what they have been handed stays exactly the flows that were flushed, each once and in order, sampled out or not |
| FlowPool.Worker.OnFlow | pkg/cat/kentik.go:348-383 | exactly what becomes of a flow taken from the channel: an error, filtered, batched, flushed with its batch, or, without an object, put back or counted as dropped; the books stay balanced |
| FlowPool.Worker.Refill | pkg/cat/kentik.go:377-383 | with an empty pool one flush refills it, and the flow goes to the end of the channel if there is room |
| FlowPool.Worker.Arrive | pkg/cat/kentik.go:252-259 | a send to the channel that drops the flow when it is full |
| FlowPool.Worker.TooBig | pkg/cat/kkc.go:463-467 | the limit may shrink at any time without breaking what the worker keeps |
| FlowPool.Worker.NeverOutOfObjects | pkg/cat/kentik.go:348-383 | with a limit of at most 8000 every flow finds an object |
| FlowPool.MessagesFit | pkg/cat/kentik.go:367-371 | no message grows past the limit that the worker started with |
| RouteMatching.RouteMatch.MatchRouter | pkg/eggs/kmux/mux.go:141-175 | the match object after Router.Match, for every object it is given |
| RouteMatching.RouteMatch.MatchRoute | pkg/eggs/kmux/route.go:46-105 | the match object after Route.Match, for every object it is given |
| RouteSelection.RouterSelects | pkg/eggs/kmux/mux.go:141-175 | matching answers as the first entry of the depth-first list that answers, in a tree where a subrouter comes last, and either tests only stand before it, with handlers for refusals at any level, or methods, too, that the leaves behind it carry, with no such handlers behind it |
| RouteSelection.ParentSelectsIff | pkg/eggs/kmux/route.go:46-105 | a route with any tests and methods before its subrouter does so for a request exactly if its methods hold, or its tests do not, or nothing behind it answers |
| RouteTrees.BuiltIsWellFormedIff | pkg/eggs/kmux/route.go:504-511 | a tree that NewRoute and Subrouter build, each copying the matchers from above, is such a tree exactly if no router behind a method matcher handles refusals |
| RouteTrees.BuiltIsWellFormed | pkg/eggs/kmux/mux.go:289-296 | with handlers for refusals at the root only, every tree that is built so is |
| RouteSelection.FirstLeafAnswers | pkg/eggs/kmux/route.go:46-105 | with such handlers at the root only, the first leaf whose whole chain of matchers holds answers |
| RouteSelection.NoLeafAnswers | pkg/eggs/kmux/mux.go:157-175 | otherwise the answer is method-not-allowed exactly if some leaf fails in its method only, else not-found |
| RouteSelection.LeafAnswerIs | pkg/eggs/kmux/mux.go:141-155 | the answer is the leaf's handler behind the middlewares of all its routers, the inner ones inside |
| RouteAnswers.AnswerVars | pkg/eggs/kmux/route.go:98-105 | an answer has exactly the variables that the leaf route and the routes leading to it extract, each with the value of the outermost that does |
| RouteAnswers.RedirectAnswers | pkg/eggs/kmux/regexp.go:283-303 | where strict slash redirects, the redirect of the outermost route that has one answers, behind the middlewares from there on |
| RouteAnswers.LeafRedirectAnswers | pkg/eggs/kmux/regexp.go:283-303 | the redirect of the leaf itself answers where no route above it has one |
| RouteAnswers.NotFoundAnswerIs | pkg/eggs/kmux/mux.go:141-175 | a not-found handler at any level answers as it is, behind no middleware, and the error stays |
| RouteAnswers.NotAllowedAnswerIs | pkg/eggs/kmux/mux.go:157-163 | a method-not-allowed handler of the root answers as it is |
| RouteSelection.InnerNotAllowedHandlerIsLost | pkg/eggs/kmux/route.go:84-97 | a method-not-allowed handler of a subrouter at any depth has no influence on the answer; without redirects that is the handler of the route leading to the subrouter behind all middlewares, or the next one outwards if there is none |
| RouteSelection.RefusedLeavesTraceIff | pkg/eggs/kmux/route.go:46-105 | for a route with its matchers in any order, over well-formed subrouters: refusing a request leaves a route name or a handler in the match object exactly if the tests before its first subrouter hold and that one matches |
| RouteSelection.LeftoverAnswers | pkg/eggs/kmux/route.go:84-97 | the next leaf that fits then answers with the handler left behind, unless a method was missed, and under the route name left behind |
| RouteTemplate.BraceIndices | pkg/eggs/kmux/regexp.go:230-251 | succeeds exactly on balanced braces, with all balanced groups in order and no brace outside them |
| RouteTemplate.GroupsAreUnique | pkg/eggs/kmux/regexp.go:230-251 | there is only one such list |
| RouteTemplate.SplitBody | pkg/eggs/kmux/regexp.go:77-82 | the name ends at the first colon, and name and pattern put the body together |
| RouteTemplate.NewRouteRegexp | pkg/eggs/kmux/regexp.go:41-143 | fails only on unbalanced braces, a missing name or pattern, or what the compiler refuses; panics exactly on a query template without a value and on capture groups; otherwise its pieces put the template back together, with the trimmed slash |
| RouteUrl.FindIsSound | pkg/eggs/kmux/regexp.go:87-116 | a match splits the input into literals and non-empty runs of the variables' classes |
| RouteUrl.FindIsComplete | pkg/eggs/kmux/regexp.go:87-116 | wherever such a split exists the expression matches |
| RouteUrl.BuildThenFind | pkg/eggs/kmux/regexp.go:180-206 | a URL built from valid values, where each literal between two variables holds a character that stops the first, matches with exactly those captures, whatever the tail and with or without the optional slash |
| RouteUrl.BuildUrl | pkg/eggs/kmux/regexp.go:180-206 | fails on a missing variable, and otherwise returns the URL or the first bad value as the specification says |
| RouteUrl.DoubledPrints | pkg/eggs/kmux/regexp.go:192 | a doubled percent sign in a literal comes out as one |
| RouteUrl.BadValueIs | pkg/eggs/kmux/regexp.go:193-204 | the error names the first variable whose value is not of its pattern |
| RouteUrl.DefaultClassIs | pkg/eggs/kmux/regexp.go:49-54 | without a pattern a variable is anything but dots in a host, and slashes elsewhere |
| RouteUrl.ExtractVars | pkg/eggs/kmux/regexp.go:324-328 | the captures under their names, a later one over an earlier of the same name |
| RouteUrl.LastCaptureStays | pkg/eggs/kmux/regexp.go:324-328 | of captures under one name the last stays |
| RouteUrl.ExtractInverts | pkg/eggs/kmux/regexp.go:324-328 | extracting what was put in for every name gives back the values |
| RouteUrl.UrlRoundTrip | pkg/eggs/kmux/doc.go:206-209 | building and matching are inverse: the URL of valid values matches its route, and the extracted variables are the values, for all patterns that the literals between variables stop, and any tail |
| RouteUrl.CutIsParsed | pkg/eggs/kmux/regexp.go:41-143 | every template that newRouteRegexp accepts meets what the theorems about URLs ask |
| RouteUrl.SlashIsTaken | pkg/eggs/kmux/regexp.go:104-106 | where a custom pattern lets the last variable take the slash at the end, no values come back |
| RouteExact.RoundTripIff | pkg/eggs/kmux/regexp.go:66-116 | for default patterns and any tail, strict slash or not: all non-empty values without the separator come back from their URL exactly if every literal between two variables contains the separator |
| RouteExact.UrlIsBuiltIff | pkg/eggs/kmux/regexp.go:180-206 | a URL is built from such values and no others exactly if those literals contain the separator, no optional slash follows a variable at the end, and the template is no prefix with variables |
| RouteExact.UrlOfValues | pkg/eggs/kmux/regexp.go:104-106 | the other values a URL is built from, with an optional slash after the last variable: those whose URL is that of good values and a slash |
| RouteExact.SlashBehindLast | pkg/eggs/kmux/regexp.go:180-206 | if the last value is not empty, these are the good values with one slash behind the last |
| RouteExact.SlashedPieces | pkg/eggs/kmux/regexp.go:180-206 | with single slashes between the variables, and any values: those that split at slashes into one good piece for each variable and an empty one |
| RouteExact.AmbiguousWithoutSeparator | pkg/eggs/kmux/regexp.go:66-116 | for every literal without the separator, two lists of good values that build the same URL |
| RollupRows.GetKey | pkg/rollup/rollup.go:269-322 | the key of a row: the texts of its dimensions, joined |
| RowMeaning.AttributeText | pkg/rollup/rollup.go:272-286 | the text of an attribute: a text, a number in decimal, or nothing, which may be written undefined |
| RowMeaning.EntryText | pkg/rollup/rollup.go:287-306 | the same for an entry of a map |
| RowMeaning.JoinedText | pkg/rollup/rollup.go:317-323 | two texts of a joined dimension, the left one first |
| RowMeaning.LookupTurns | pkg/rollup/rollup.go:290-296 | a source attribute that is missing is looked up as the destination's, and the other way round |
| RowMeaning.LookupFinds | pkg/rollup/rollup.go:287-289 | an entry that is there is found |
| RowMeaning.LookupElsewhere | pkg/rollup/rollup.go:287-296 | one that is not, and has no direction, is empty |
| RollupRows.ComputeWholeAmount | pkg/rollup/stats.go:127-153 | the metrics of a row in 64-bit arithmetic, times the sample rate where configured |
| RowMeaning.AmountIs | pkg/rollup/stats.go:98-150 | what a row adds to a counter: the metrics that are its own, or all of them, times the sample rate, modulo 2^64 |
| RowMeaning.MultiMetricsAddUp | pkg/rollup/stats.go:98-150 | metrics in maps add up one by one, as far as they are numbers |
| RowMeaning.RowValueIs | pkg/rollup/stats.go:98-163 | the value of a row for the extremes: all its metrics, times the sample rate, modulo 2^64 |
| RollupRows.Filter | pkg/rollup/rollup.go:340-355 | the rows that every filter accepts, in order |
| RowMeaning.KeptAre | pkg/rollup/rollup.go:340-356 | each row as often as it came if every filter accepts it, in their order, and no others |
| SumRollup.Summarize | pkg/rollup/stats.go:98-162 | the summary of a batch: for every key and metric the sum of its rows modulo 2^64, the count and the exact extremes |
| SumRollup.MergeCounters | pkg/rollup/stats.go:274-281 | merging summaries of two lists of rows gives that of both lists together, in whatever order the keys come |
| SumRollup.StatsRollup.Add | pkg/rollup/stats.go:163-178 | a batch is queued or, with a full queue, lost as a whole; the books stay balanced |
| SumRollup.StatsRollup.Merge | pkg/rollup/stats.go:273-289 | the head of the queue moves into the live window |
| SumRollup.StatsRollup.Export | pkg/rollup/stats.go:290-296 | the live window is handed out as one more window and a new one starts |
| SumRollup.Conservation | pkg/rollup/stats.go:264-299 | in every reachable state, for each key and metric, exported windows, live, queued and lost summaries add up to all added rows modulo 2^64 |
| SumRollup.LaterMinimum | pkg/rollup/stats.go:293-295 | from the second window on the minimum is always zero, which is right exactly if some row has the value zero |
| SumRollup.FirstMinimum | pkg/rollup/stats.go:264-289 | in the first window minimum and maximum are attained and bound every row |
| Sorting.Sort | pkg/rollup/rollup.go:185-189 | a descending permutation; nothing is said about elements of equal keys |
| TopRollups.TopOf | pkg/rollup/stats.go:310-326 | the listed rollups, sorted and cut |
| TopRollups.ShownAreLargest | pkg/rollup/stats.go:320-326 | an export shows min(K, n) rollups of different keys in descending order, and none left out is larger than any shown |
| TopRollups.ExportSum | pkg/rollup/stats.go:303-331 | the top of every metric name, and nothing from an empty window |
| ExportMeaning.ExportTells | pkg/rollup/stats.go:301-330 | every exported rollup has the metric that the rows of its window add up to for its key and name, their count and their extremes |
| ExportMeaning.DimensionNames | pkg/rollup/rollup.go:328-338 | the names of dimensions |
| CacheStore.CutoffIsUnique | pkg/rollup/cache.go:292-318 | what a cleanup removes does not depend on the order in which the map is visited |
| CacheStore.CleanupRemoves | pkg/rollup/cache.go:304-318 | a cleanup of n entries removes at least n/2 + 1 |
| CacheStore.CleanupRemovesExactly | pkg/rollup/cache.go:284-322 | with ages all different it removes exactly n/2 + 1, and two of two or three |
| CacheStore.RemovedAreOlder | pkg/rollup/cache.go:309-318 | every removed entry is older than every survivor |
| CacheStore.NewestSurvivesIff | pkg/rollup/cache.go:102-113 | the entry just inserted survives its own cleanup exactly if more than a threshold of entries is strictly older |
| CacheStore.SameAgeEmpties | pkg/rollup/cache.go:309-318 | entries of one age, such as those of one batch, all go |
| CacheStore.StepKeepsBound | pkg/rollup/cache.go:102-113 | with cleanup on, no row leaves more than MaxKeys entries in the cache |
| CacheStore.StepKeepsRows | pkg/rollup/cache.go:81-126 | no row leaves an entry without rows |
| CacheStore.UncleanedIsExact | pkg/rollup/cache.go:73-165 | while no cleanup has fired the cache agrees with the sum rollup on every non-empty key, with its exact count and extremes |
| CacheStore.LostIsTheRest | pkg/rollup/cache.go:309-318 | cleanups included, what an entry lacks of its key's total is exactly what has been lost |
| CacheStore.UsageShort | pkg/rollup/cache.go:324-337 | memory usage falls short of the entry sizes by the live distinct values and by what was taken off in excess |
| CacheStore.UsageIsExact | pkg/rollup/cache.go:324-337 | for a rollup that is not unique it is the sum of the entry sizes in every state |
| CacheRollup.Cache.Add | pkg/rollup/cache.go:73-126 | a batch does one step of the specification for each row that the filters accept, in order, and panics exactly at the first that opens an empty cache over the memory limit; after it the cache is within its bound and its accounts hold |
| CacheRollup.Cache.AddRow | pkg/rollup/cache.go:81-125 | one row does one step of the specification, and panics exactly if it opens an empty cache over the memory limit |
| CacheRollup.Cache.Insert | pkg/rollup/cache.go:88-114 | a new entry and the cleanup it may set off, which may take the entry away again |
| CacheRollup.Cache.Record | pkg/rollup/cache.go:116-125 | an entry takes in the row, in the cache or already out of it |
| CacheRollup.Cache.UniqueValues | pkg/rollup/cache.go:167-192 | the distinct values of a row |
| CacheRollup.PanicsIff | pkg/rollup/cache.go:263-282 | a new entry panics exactly if the cache is over a limit with that entry alone |
| CacheRollup.Cache.EstimateEntrySize | pkg/rollup/cache.go:324-337 | the estimate for an entry |
| CacheRollup.Cache.DoEmergencyCleanup | pkg/rollup/cache.go:284-322 | exactly the entries up to the cutoff go; a single entry makes it panic |
| CacheRollup.CutoffFrom | pkg/rollup/cache.go:291-309 | the age at the threshold index of the sorted ages is the cutoff |
| CacheRollup.Cache.Export | pkg/rollup/cache.go:209-261 | the cache starts again from nothing and the largest of what it held are exported |
| ExportMeaning.CacheExportTells | pkg/rollup/cache.go:209-261 | every exported rollup has the sum, or the number of distinct values, of the rows that its entry stands for, with their count and extremes |
| ExportMeaning.RowTouches | pkg/rollup/cache.go:73-126 | a row leaves other entries as they are, and its own has it as its last row and the current time |
| ExportMeaning.FullIff | pkg/rollup/cache.go:263-282 | a cleanup is due over the limit in mebibytes or over the number of keys |
| ExportMeaning.EntrySizeIs | pkg/rollup/cache.go:324-337 | 150 bytes and the key, and 20 bytes and the text for each distinct value |
| ExportMeaning.ValuesAreTexts | pkg/rollup/cache.go:167-192 | the distinct values of a row are the texts of its metrics |
| SplitJoin.SplitJoinIff | pkg/formats/nrm/nrm.go:279 | splitting a joined key gives back its parts exactly if there are any and none contains the token |
| SplitJoin.PiecesOfKey | pkg/formats/nrm/nrm.go:279-280 | how many pieces a joined key falls into |
| RollupAttributes.KeyIsReadBackIff | pkg/formats/nrm/nrm.go:279-280 | a key is read back part by part exactly if there is a dimension and no part holds the token; in every other case there are more parts than names, and indexing panics |
| RollupAttributes.SetDims | pkg/formats/nrm/nrm.go:279-294 | panics exactly if there are more parts than names; otherwise the last part under a name decides its attribute and no other attribute changes |
| RollupAttributes.SaysNumber | pkg/formats/nrm/nrm.go:285-294 | a number is an attribute as it is written, but at a port every number above 32768 is 32768 |
| RollupAttributes.SaysText | pkg/formats/nrm/nrm.go:284-288 | any other part is an attribute as it is written |
| RollupAttributes.SaysNothing | pkg/formats/nrm/nrm.go:285-287 | a zero, dashes and an empty part are none |
| RollupAttributes.DirectionsShareNames | pkg/formats/nrm/nrm.go:240-259 | both directions of a flow share their attribute names |
| RollupAttributes.OtherNamesStay | pkg/formats/nrm/nrm.go:240-259 | no other name is changed |
| Decimal.DigitsInvert | pkg/rollup/rollup.go:280-283 | the decimal text of a number stands for that number |
| DeviceTags.SetPass | pkg/inputs/snmp/snmp.go:540-549 | one pass over a map that it changes is some sequence of visits that leaves out no key of the map, with inserted keys visited or not |
| DeviceTags.PassIsDeterminedIff | pkg/inputs/snmp/snmp.go:540-549 | the outcome of a pass is the same for all such sequences exactly if no key of the provider is again one behind its prefix |
| DeviceTags.RunIsPassed | pkg/inputs/snmp/snmp.go:540-549 | then every key of the provider has moved to its bare name unless that is taken, and nothing else has changed |
| DeviceTags.NestedDependsOnVisits | pkg/inputs/snmp/snmp.go:540-549 | for every other map, two sequences of visits with different outcomes |
| DeviceTags.Prune | pkg/inputs/snmp/snmp.go:551-557 | the keys without the prefix stay |
| DeviceTags.MatchesPrefixIs | pkg/inputs/snmp/snmp.go:521-537 | what a tag matches for a provider |
| DeviceTags.SetDeviceTags | pkg/inputs/snmp/snmp.go:539-574 | for every map: the outcome is one that three passes and the removal of prefixed keys can have |
| DeviceTags.OutcomeIsResolved | pkg/inputs/snmp/snmp.go:539-574 | it does not depend on the order of the maps where no pass meets a key prefixed twice by its provider |
| DeviceTags.ResolvedAt | pkg/inputs/snmp/snmp.go:539-574 | then every bare key takes its value from the first there is of itself, device, the provider and global, and their nestings in between; no prefixed key is left |
| PrunedPass.PrunedPassIsDeterminedIff | pkg/inputs/snmp/snmp.go:540-557 | a pass followed by the removal of prefixed keys has one outcome exactly if every bare key that a key with two or more layers of the provider leads to is there itself or with one layer |
| PrunedPass.SettledRun | pkg/inputs/snmp/snmp.go:540-557 | the value of every bare key is then its own, else that with one layer |
| PrunedPass.OutcomeIsDeterminedIff | pkg/inputs/snmp/snmp.go:539-574 | where the first two passes have one outcome each, the whole has one exactly if that holds before the global pass |
| ProviderTags.QualifyAll | pkg/kt/snmp.go:918-947 | every bare key is qualified, over a qualified one of the same name, while the map is being ranged over |
| ProviderTags.AddProvider | pkg/kt/snmp.go:951-960 | the bare keys of a provider are added to the global tags, qualified by its name |
| ProviderTags.QualifiedSays | pkg/kt/snmp.go:918-947 | which key a bare tag is found under, and with which value; prefixed ones stay |
| ProviderTags.ExtendedSays | pkg/kt/snmp.go:951-960 | the same for the tags of a provider among the global ones |
| ProviderTags.SnmpConfig.Init | pkg/kt/snmp.go:901-961 | the first call qualifies global and device tags, and every call adds its provider's |
| ProviderTags.SnmpConfig.InitAll | pkg/inputs/snmp/snmp.go:432-434 | for all providers, in any order |
| ProviderTags.SnmpConfig.CopyDown | pkg/inputs/snmp/snmp.go:436-445 | a device gets every global tag that it does not have |
| ProviderTags.SnmpConfig.ParseTags | pkg/inputs/snmp/snmp.go:430-481 | the tags of every device after the whole way from the configuration, whatever the keys and the names of the providers |
| ProviderTags.Precedence | pkg/inputs/snmp/snmp.go:430-481 | a device's own tag wins over its provider's and that over the global one, and there are no others |
| DeviceSet.SnmpConf.AddDevices | pkg/inputs/snmp/disco.go:398-493 | the device set is that of insertion, removal of duplicates and purge, each in some order; on success the device count has grown by added and delta is its negative |
| DeviceSet.InsertAllKeeps | pkg/inputs/snmp/disco.go:419-447 | insertion loses no entry, counts those it adds, and gives every found device an entry |
| DeviceSet.InsertIs | pkg/inputs/snmp/disco.go:419-447 | which entry a found device concerns, and that it is added, replaced but for its purge number, or refreshed |
| DeviceSet.KnownIPs | pkg/inputs/snmp/disco.go:398-418 | the addresses known before are those of all devices |
| DeviceSet.StaleIff | pkg/inputs/snmp/disco.go:479-483 | a device is stale when it was seen last more than so many polls and 900 seconds ago |
| DeviceSet.DedupLeavesOne | pkg/inputs/snmp/disco.go:449-462 | in every order one device is left for each engine ID present |
| DeviceSet.DedupKeepsOthers | pkg/inputs/snmp/disco.go:449-462 | no device without an engine ID goes, and none changes |
| DeviceSet.OwnNumberDecides | pkg/inputs/snmp/disco.go:464-489 | in every order a device with a number of its own is purged only if that makes it stale, and exactly then if there is no error; a pinned one never goes, error or not |
| DeviceSet.GlobalNumberDecidesIff | pkg/inputs/snmp/disco.go:464-489 | a device without a number is purged as the global number says in all orders exactly if the numbers of all other devices say the same about it |
| DeviceSet.InvalidIff | pkg/inputs/snmp/disco.go:472-477 | with a valid global number a purge fails exactly if some device has an invalid one |
| KflowCustoms.GetIds | pkg/formats/kflow/kflow.go:289-331 | an id for every attribute name, and a mapping list filled exactly |
| KflowCustoms.Fill | pkg/formats/kflow/kflow.go:262-284 | one loop writes one entry for each attribute, within the list and one after the other |
| KflowCustoms.Pack | pkg/formats/kflow/kflow.go:262-287 | the list of a flow's attributes, in any order of the maps |
| KflowCustoms.PackedLength | pkg/formats/kflow/kflow.go:68-76 | the list is filled exactly to the length allocated |
| KflowCustoms.To | pkg/formats/kflow/kflow.go:45-101 | the mapping message first, then one message for each flow, behind the sender key; nothing for no flows |
| KflowRoundTrip.From | pkg/formats/kflow/kflow.go:103-204 | the sender and the flows as the specification reads them, or an error without a caret in the prefix |
| KflowRoundTrip.MappingResolvesIff | pkg/formats/kflow/kflow.go:192-199 | the mapping message resolves every id exactly if no two names share a checksum |
| KflowRoundTrip.CustomsRoundTrip | pkg/formats/kflow/kflow.go:45-204 | without shared checksums every flow comes back with all its attributes, integers as unsigned ones, later kinds over earlier and all over the fixed fields of the same name |
| KflowRoundTrip.AttributesComeBack | pkg/formats/kflow/kflow.go:45-204 | so every name that is read has the text of its string, or its integer modulo 2^32 or 2^64, or the fixed field |
| KflowRoundTrip.CollisionLoses | pkg/formats/kflow/kflow.go:289-331 | of two names that share a checksum one never comes back |
| KflowRoundTrip.CustomsRoundTripIff | pkg/formats/kflow/kflow.go:45-204 | with attributes named unlike the fixed fields, every flow comes back exactly if no two names in the batch share a checksum |
| KflowRoundTrip.SenderReadIff | pkg/formats/kflow/kflow.go:81-85 | reading fails exactly for a sender key of 80 bytes or more, and gives back the key exactly if the device name has no caret |
| PromLabels.AddTagLabels | pkg/formats/prom/prom.go:39-53 | new labels go behind the old ones; the positions stay a bijection onto 0..n-1 |
| PromLabels.DenseMeans | pkg/formats/prom/prom.go:39-53 | such positions are below n and all different |
| PromLabels.GetTagValues | pkg/formats/prom/prom.go:55-70 | as many values as labels, each in the slot of its label, and nothing in the others |
| PromLabels.ToLabels | pkg/formats/prom/prom.go:107-124 | the label of each position |
| PromLabels.SafeMeans | pkg/formats/prom/prom.go:107-117 | a label has underscores for dots and blanks |
| PromLabels.InvalidMeans | pkg/formats/prom/prom.go:24 | the tags that are no labels are those of digits only |
| PromLabels.PromFormat.Observe | pkg/formats/prom/prom.go:139-164 | a data point adds labels until enough were seen, then is set in its registered vector with one value for each label; it panics exactly where the vector cannot be registered or a value is refused |
| PromLabels.PromFormat.To | pkg/formats/prom/prom.go:126-168 | a run is the observation of one data point after the other, up to the first that panics; no position changes, and the labels of a registered vector are frozen |
| PromLabels.RegistrableIff | pkg/formats/prom/prom.go:107-124 | a vector can be registered exactly if its name and labels are well formed and no two tags differ only in dots, spaces and underscores |
| OidText.FormatKeyOid | pkg/formats/snmp/snmp.go:208-228 | the decimal digits in groups of three; the buffer is filled backwards, exactly and within its bounds |
| OidText.GroupedInverts | pkg/formats/snmp/snmp.go:208-228 | deleting the dots gives back the digits |
| OidText.DotsAt | pkg/formats/snmp/snmp.go:208-228 | dots stand at every fourth place from the right and nowhere else, and not in front |
| OidText.FormatInjective | pkg/formats/snmp/snmp.go:202-228 | different numbers have different texts |

## Left out

- Sinks, listeners, files, YAML, cloud secrets, signals, metrics meters and logging: input and output without state of their own.
- `pkg/rollup/unique.go`: the same queue and windows as the sum rollup, with sets in place of sums; the HLL estimate is a library's.
- Mean, median, percentile and entropy rollups, and the conversion of metrics to float64: metrics stay integers.
- `rollupBase.init`: the definition of a rollup is given in its parsed form, and so is `keepUndefined`.
- `toNRMetricRollup` beyond the attributes of the dimensions: provider names and vpc_identification are field copying.
- `pkg/inputs/flow/format.go` and `CopyAttrForSnmp`: one loop each, which an append and a filter describe.
- `flowToJCHF`, the lookups of enrichment and `handleJson` in `pkg/cat`: whether a flow converts is a parameter, and so is what enrichment finds; the worker is modelled without `handleJson` taking objects from its pool (it keeps the object when the JSON is bad).
- FlowPool.Worker.SendBytesOn: enrichment is a function of the flow that fills in a text; an external enricher, which may return other objects than it was given, is left out.
- Blocking on a full output channel: outputs are a list that grows.
- FlowBatch.KeptOf: the division is in integers; the source divides floats, which agree for batches of at most 8000.
- ExportSpans.ShrinksToOne: three quarters in integers; the source multiplies a float, exact below 2^51.
- NetflowReader: the dictionary of information elements has the columns that the encoder writes; options templates end the reading with an outcome of their own; enterprise elements, and the template tracker's logging, are left out.
- FlowRecord: addresses and hardware addresses are taken in the canonical text that Go prints.
- RouteTrees.BuiltIsWellFormed: routes that get a second subrouter, or other matchers after their subrouter; `RouteSelection.RefusedLeavesTraceIff` is about these, too.
- RouteMatching: matchers other than methods and subrouters are tests of the request; what setMatch extracts and where strict slash redirects are functions of the request, given with the route.
- RouteUrl: patterns are runs of a character class, as the default ones; other regular expressions, query matchers and percent signs in literals are left out.
- RouteTemplate.NewRouteRegexp: whether patterns compile, and how many capture groups the whole expression has, is asked of a given compiler.
- CacheRollup: memory usage is an unbounded integer, and the clock an integer; whether it advances makes no difference to what is proved. Lengths of keys and values, which the size of an entry counts, are in characters where the source counts bytes.
- SplitJoin.SplitJoinIff: join tokens of one character, as the default one.
- DeviceTags.OutcomeIsResolved: its condition is not exact for all three passes together, as a later pass can hide what an earlier one left open; it is exact for a pass, and `PrunedPass.OutcomeIsDeterminedIff` for the last one.
- ProviderTags: user tags and match attributes go through the same code and are modelled once; a configuration without a global section, and tags added after the passes, are left out.
- DeviceSet: the fields of a device that insertion, duplicates and purge look at; one clock reading for a whole call.
- KflowCustoms: Cap'n Proto and gzip are left out, a message is a list; the fixed fields of a flow are a given map. The length of a sender key is counted in characters, the source counts bytes; they agree for ASCII names.
- PromLabels: the value of a tag is its text; `Rollup`, which registers vectors of its own, and a registration that clashes with one of those, are left out.
- `pkg/stitch`, other formats, and the Cap'n Proto, Avro, Parquet and line-protocol encodings.
